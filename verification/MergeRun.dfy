/** Whole stages and whole stage lists of the OPT merging simulator. */
module MergeRun {
  import opened Arithmetic
  import opened SimBlocks
  import opened StageInvariant
  import opened Relocation
  import opened SimPlacement
  import opened MergeStep
  import opened MergeFill
  import opened MergeOne
  import opened StripeInfo

  // ----- between stages

  /** The state between stages: x stripes of `size` original ones each, numbered from 0, with d data blocks of each
      stripe in the tail clusters. */
  ghost predicate SimOk(cfg: Config, size: nat, x: nat, d: nat, view: View, stripes: seq<Stripe>) {
    && cfg.Valid() && size > 0 && x * size == cfg.x0 && |stripes| == x
    && ViewReady(cfg, Stage(size, x, 2, d, d), 0, view)
    && forall j :: 0 <= j < x ==> StripeOk(cfg, size, view, stripes, j)
  }

  ghost predicate StripeOk(cfg: Config, size: nat, view: View, stripes: seq<Stripe>, j: nat)
    requires j < |stripes|
  {
    stripes[j].id == j && InfoOk(cfg, size, j, stripes[j].info) && PlacesOf(cfg, view, j, stripes[j].place2cluster)
  }

  /** Within a stage, after n merges. */
  ghost predicate MidStage(cfg: Config, st: Stage, n: nat, view: View, stripes: seq<Stripe>, larger: seq<Stripe>)
    requires cfg.Valid() && st.Valid()
  {
    && |stripes| == st.x && |larger| == n && ViewReady(cfg, st, n, view)
    && (forall j :: 0 <= j < st.x ==> InfoOk(cfg, st.size, j, stripes[j].info))
    && (forall q: nat :: st.From(n) <= q < st.x ==> PlacesOf(cfg, view, q, stripes[q].place2cluster))
    && forall t :: 0 <= t < n ==> StripeOk(cfg, st.size * st.xi, view, larger, t)
  }

  /** At the start of a stage nothing depends on how many stripes will be merged. */
  lemma StageStart(cfg: Config, st: Stage, st2: Stage, view: View)
    requires cfg.Valid() && st.Valid() && st2.Valid() && st.size == st2.size && st.x == st2.x && st.d == st2.d
    requires ViewReady(cfg, st, 0, view)
    ensures ViewReady(cfg, st2, 0, view)
  {
    hide Total, Count, DataCluster, LocalTag, GlobalTag;
    assert st.From(0) == 0 == st2.From(0);
    forall c: nat | c < |view| ensures ClusterReady(cfg, st2, 0, c, view[c]) {
      assert ClusterReady(cfg, st, 0, c, view[c]);
      StartCluster(cfg, st, st2, c, view[c]);
    }
  }

  lemma StartCluster(cfg: Config, st: Stage, st2: Stage, c: nat, s: ClusterState)
    requires cfg.Valid() && st.Valid() && st2.Valid() && st.size == st2.size && st.x == st2.x && st.d == st2.d
    requires ClusterReady(cfg, st, 0, c, s)
    ensures ClusterReady(cfg, st2, 0, c, s)
  {
    hide Count, DataCluster, LocalTag, GlobalTag;
    assert forall t: nat :: st.ValidTag(0, t) <==> st2.ValidTag(0, t);
    assert forall o: nat :: st.Tag(0, o) == st2.Tag(0, o);
    assert DataTags(cfg, st2, 0, s.blocks);
  }

  /** The end of a stage is the start of the next one. */
  lemma StageEnd(cfg: Config, st: Stage, y: nat, st2: Stage, view: View)
    requires cfg.Valid() && st.Valid() && st2.Valid() && st.x == y * st.xi && st.x * st.size == cfg.x0
    requires st2.size == st.size * st.xi && st2.x == y && st2.d == st.d2 && ViewReady(cfg, st, y, view)
    ensures ViewReady(cfg, st2, 0, view)
  {
    hide Total, ClusterReady;
    forall c: nat | c < |view| ensures ClusterReady(cfg, st2, 0, c, view[c]) {
      EndCluster(cfg, st, y, st2, c, view[c]);
    }
  }

  lemma EndCluster(cfg: Config, st: Stage, y: nat, st2: Stage, c: nat, s: ClusterState)
    requires cfg.Valid() && st.Valid() && st2.Valid() && st.x == y * st.xi && st.x * st.size == cfg.x0
    requires st2.size == st.size * st.xi && st2.x == y && st2.d == st.d2 && ClusterReady(cfg, st, y, c, s)
    ensures ClusterReady(cfg, st2, 0, c, s)
  {
    hide Count, DataCluster, LocalTag, GlobalTag, Config.Special;
    forall t: nat ensures st.ValidTag(y, t) <==> st2.ValidTag(0, t) {
    }
    assert DataTags(cfg, st2, 0, s.blocks) by {
      forall b | b in s.blocks && b.kind == D ensures DataTag(cfg, st2, 0, b) {
        assert DataTag(cfg, st, y, b);
        EndTag(cfg, st, y, st2, b.num);
      }
    }
  }

  lemma EndTag(cfg: Config, st: Stage, y: nat, st2: Stage, num: nat)
    requires cfg.Valid() && st.Valid() && st2.Valid() && st.x == y * st.xi && st.x * st.size == cfg.x0
    requires st2.size == st.size * st.xi && cfg.l * cfg.r > 0 && num < cfg.DataCount()
    ensures st.Tag(y, cfg.Origin(num)) == st2.Tag(0, cfg.Origin(num))
  {
    var o := cfg.Origin(num);
    DivBelow(num, cfg.l * cfg.r, cfg.x0);
    DivBelow(o, st.size, st.x);
    DivTwice(o, st.size, st.xi);
  }

  lemma DivMod(a: nat, b: nat) returns (q: nat, m: nat)
    requires b > 0
    ensures q == a / b && a == q * b + m && m < b
  {
    q, m := a / b, a % b;
  }

  /** Repeated division, in terms of the digits. */
  lemma Digits(a: nat, b: nat, c: nat, q: nat, m: nat, q2: nat, m2: nat)
    requires a == q * b + m && m < b && q == q2 * c + m2 && m2 < c
    ensures b * c > 0 && a / (b * c) == q2
  {
    assert q2 * c * b == q2 * (b * c);
    PackBelow(m2, c, b, m);
    MulMono(1, b, c);
    DivModUnique(a, b * c, q2, m2 * b + m);
  }

  lemma DivTwice(a: nat, b: nat, c: nat)
    requires b > 0 && c > 0
    ensures b * c > 0 && a / b / c == a / (b * c)
  {
    var q, m := DivMod(a, b);
    var q2, m2 := DivMod(q, c);
    Digits(a, b, c, q, m, q2, m2);
  }

  // ----- one stage

  /** The clusters that the stripes s to s + xi - 1 span. */
  method SpannedClusters(cfg: Config, stripes: seq<Stripe>, s: nat, xi: nat, ghost view: View) returns (clusterSet: set<nat>)
    requires s + xi <= |stripes| && xi > 0
    requires forall q: nat :: s <= q < s + xi ==> PlacesOf(cfg, view, q, stripes[q].place2cluster)
    ensures Places(cfg, view, s, s + xi, clusterSet)
  {
    hide Config.Special;
    clusterSet := stripes[s].place2cluster;
    assert PlacesOf(cfg, view, s, clusterSet);
    for j := s + 1 to s + xi
      invariant Places(cfg, view, s, j, clusterSet)
    {
      assert PlacesOf(cfg, view, j, stripes[j].place2cluster);
      clusterSet := clusterSet + stripes[j].place2cluster;
    }
  }

  lemma StageBounds(st: Stage, y: nat, n: nat)
    requires st.Valid() && st.x == y * st.xi && n < y
    ensures st.From(n + 1) == st.From(n) + st.xi <= st.x && st.x / st.xi == y
  {
    FromNext(st, n);
    MulMono(n + 1, y, st.xi);
    DivModUnique(st.x, st.xi, y, 0);
  }

  /** The n-th merge of a stage. */
  method MergeNext(p: DataPlacement, cfg: Config, xi: nat, y: nat, n: nat, stripes: seq<Stripe>, larger: seq<Stripe>,
      ghost st: Stage, ghost f: Fill, ghost f2: Fill)
    returns (more: seq<Stripe>, dc: nat)
    requires p.Valid() && cfg.Valid() && st.Valid() && StageOk(cfg, st) && xi == st.xi && st.x == y * st.xi && n < y
    requires MidStage(cfg, st, n, p.View(), stripes, larger)
    requires EvenAt(cfg, st, n, p.View(), f, f2) && f2 == NextFill(cfg, st.d, st.xi, f)
    modifies p, p.clusters
    ensures p.Valid() && p.Grown() && MidStage(cfg, st, n + 1, p.View(), stripes, more)
    ensures dc == (if cfg.tails then cfg.l else 0) * DataToMove(cfg, st)
    ensures EvenAt(cfg, st, n + 1, p.View(), f, f2)
  {
    hide EvenAt, NextFill, DataToMove, Stage.From, InfoOk, MidStage, Places, PlacesOf, StageCost, StageOk, Cluster.State,
      DataPlacement.Valid, Config.Valid, Stage.Valid, Cluster.Valid, Stage.ValidTag, DataPlacement.View, ViewReady;
    StageBounds(st, y, n);
    ghost var view0 := p.View();
    MidStageFacts(cfg, st, n, view0, stripes, larger);
    var info := MergeInfo(cfg, stripes, n * xi, xi, n, st.size);
    var clusterSet := SpannedClusters(cfg, stripes, n * xi, xi, view0);
    var places;
    places, dc := MergeStripes(p, cfg, xi, y, n, clusterSet, st, f, f2);
    more := larger + [Stripe(n, info, places)];
    NextMidStage(cfg, st, n, view0, p.View(), stripes, larger, info, places);
  }

  lemma MidStageFacts(cfg: Config, st: Stage, n: nat, view: View, stripes: seq<Stripe>, larger: seq<Stripe>)
    requires cfg.Valid() && st.Valid() && MidStage(cfg, st, n, view, stripes, larger)
    ensures st.From(n) == n * st.xi && st.xi > 1 && |stripes| == st.x && ViewReady(cfg, st, n, view)
    ensures forall j :: 0 <= j < |stripes| ==> InfoOk(cfg, st.size, j, stripes[j].info)
    ensures forall q: nat :: n * st.xi <= q < st.x ==> PlacesOf(cfg, view, q, stripes[q].place2cluster)
  {
    hide ViewReady, PlacesOf, InfoOk, StripeOk;
  }

  lemma NextMidStage(cfg: Config, st: Stage, n: nat, view0: View, view: View, stripes: seq<Stripe>, larger: seq<Stripe>,
      info: seq<seq<BlockId>>, places: set<nat>)
    requires cfg.Valid() && st.Valid() && MidStage(cfg, st, n, view0, stripes, larger) && st.From(n + 1) <= st.x
    requires ViewReady(cfg, st, n + 1, view) && PlacesOf(cfg, view, n, places) && InfoOk(cfg, st.size * st.xi, n, info)
    requires forall t: nat, others: set<nat> ::
      st.ValidTag(n + 1, t) && t != n && PlacesOf(cfg, view0, t, others) ==> PlacesOf(cfg, view, t, others)
    ensures MidStage(cfg, st, n + 1, view, stripes, larger + [Stripe(n, info, places)])
  {
    hide ViewReady, PlacesOf, InfoOk, Stage.From;
    FromNext(st, n);
    var more := larger + [Stripe(n, info, places)];
    forall t | 0 <= t < n + 1 ensures StripeOk(cfg, st.size * st.xi, view, more, t) {
      if t < n {
        assert StripeOk(cfg, st.size * st.xi, view0, larger, t);
        assert PlacesOf(cfg, view0, t, larger[t].place2cluster);
      }
    }
    forall q: nat | st.From(n + 1) <= q < st.x ensures PlacesOf(cfg, view, q, stripes[q].place2cluster) {
      assert PlacesOf(cfg, view0, q, stripes[q].place2cluster);
    }
  }

  /** The tail clusters' data per stripe after merging xi at a time. */
  function NextTail(cfg: Config, d: nat, xi: nat): nat {
    if xi * d > cfg.g then cfg.g else xi * d
  }

  /** The surplus that a merge of xi stripes moves out of each of the tail clusters. */
  function MergeCost(cfg: Config, d: nat, xi: nat): nat {
    if xi > 1 && xi * d > cfg.g then (if cfg.tails then cfg.l else 0) * ((xi - 1) * cfg.g) else 0
  }

  /** Data moved by one stage that makes y larger stripes. */
  function StageCost(cfg: Config, y: nat, d: nat, xi: nat): nat { y * MergeCost(cfg, d, xi) }

  lemma StageBegins(cfg: Config, st: Stage, view: View, stripes: seq<Stripe>)
    requires st.Valid() && SimOk(cfg, st.size, st.x, st.d, view, stripes)
    ensures MidStage(cfg, st, 0, view, stripes, [])
  {
    hide ViewReady, PlacesOf, InfoOk;
    StageStart(cfg, Stage(st.size, st.x, 2, st.d, st.d), st, view);
    forall j | 0 <= j < st.x
      ensures InfoOk(cfg, st.size, j, stripes[j].info) && PlacesOf(cfg, view, j, stripes[j].place2cluster)
    {
      assert StripeOk(cfg, st.size, view, stripes, j);
    }
  }

  lemma StageEnds(cfg: Config, st: Stage, y: nat, view: View, stripes: seq<Stripe>, larger: seq<Stripe>)
    requires cfg.Valid() && st.Valid() && st.x == y * st.xi && st.x * st.size == cfg.x0
    requires MidStage(cfg, st, y, view, stripes, larger)
    ensures SimOk(cfg, st.size * st.xi, y, st.d2, view, larger)
  {
    hide ViewReady, PlacesOf, InfoOk;
    MulMono(1, st.xi, st.size);
    assert y * (st.size * st.xi) == cfg.x0 by {
      assert st.x * st.size == y * (st.xi * st.size);
    }
    StageEnd(cfg, st, y, Stage(st.size * st.xi, y, 2, st.d2, st.d2), view);
  }

  /** Merges x stripes xi at a time; s runs over the first stripes of the merges. */
  method RunStage(p: DataPlacement, cfg: Config, x: nat, xi: nat, stripes: seq<Stripe>, ghost size: nat, ghost d: nat,
      ghost f: Fill)
    returns (larger: seq<Stripe>, dc: nat)
    requires p.Valid() && xi > 1 && x % xi == 0 && SimOk(cfg, size, x, d, p.View(), stripes)
    requires (xi * d <= cfg.g || d == cfg.g) && Evenly(cfg, x, p.View(), f)
    modifies p, p.clusters
    ensures p.Valid() && p.Grown()
    ensures SimOk(cfg, size * xi, x / xi, NextTail(cfg, d, xi), p.View(), larger)
    ensures dc == StageCost(cfg, x / xi, d, xi)
    ensures Evenly(cfg, x / xi, p.View(), NextFill(cfg, d, xi, f))
  {
    hide EvenAt, Evenly, NextFill, DataToMove, MergeCost, MidStage, NextTail, SimOk, StageCost, StageOk, Cluster.State, DataPlacement.Valid,
      Config.Valid, Stage.Valid, Cluster.Valid, DataPlacement.View;
    ghost var st := Stage(size, x, xi, d, NextTail(cfg, d, xi));
    var y := x / xi;
    StageSetUp(cfg, st, y, p.View(), stripes);
    StageBegins(cfg, st, p.View(), stripes);
    ghost var f2 := NextFill(cfg, d, xi, f);
    EvenStart(cfg, st, p.View(), f, f2);
    larger, dc := [], 0;
    for n := 0 to y
      invariant p.Valid() && p.Grown() && MidStage(cfg, st, n, p.View(), stripes, larger) && dc == n * MergeCost(cfg, d, xi)
      invariant EvenAt(cfg, st, n, p.View(), f, f2)
    {
      var moved;
      larger, moved := MergeNext(p, cfg, xi, y, n, stripes, larger, st, f, f2);
      NextCost(cfg, st, n, moved);
      dc := dc + moved;
    }
    StageEnds(cfg, st, y, p.View(), stripes, larger);
    EvenEnd(cfg, st, y, p.View(), f, f2);
    CostOfStage(cfg, y, d, xi);
  }

  lemma CostOfStage(cfg: Config, y: nat, d: nat, xi: nat)
    ensures StageCost(cfg, y, d, xi) == y * MergeCost(cfg, d, xi)
  {
  }

  lemma StageSetUp(cfg: Config, st: Stage, y: nat, view: View, stripes: seq<Stripe>)
    requires st.xi > 1 && st.x % st.xi == 0 && y == st.x / st.xi && SimOk(cfg, st.size, st.x, st.d, view, stripes)
    requires (st.xi * st.d <= cfg.g || st.d == cfg.g) && st.d2 == NextTail(cfg, st.d, st.xi)
    ensures cfg.Valid() && st.Valid() && StageOk(cfg, st) && st.x == y * st.xi && st.x * st.size == cfg.x0
  {
    hide ViewReady, StripeOk;
    DivExact(1, st.x, st.xi);
    if st.d == cfg.g {
      MulMono(2, st.xi, cfg.g);
    }
  }

  lemma NextCost(cfg: Config, st: Stage, n: nat, moved: nat)
    requires st.xi > 1 && moved == (if cfg.tails then cfg.l else 0) * DataToMove(cfg, st)
    ensures n * MergeCost(cfg, st.d, st.xi) + moved == (n + 1) * MergeCost(cfg, st.d, st.xi)
  {
    assert moved == MergeCost(cfg, st.d, st.xi);
  }
}
