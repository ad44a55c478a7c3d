/** The whole simulation: any accepted list of stages keeps clusters and stripes in agreement, and moves exactly as much
    data as the closed form says, if the first stage fills the tails. */
module StagedMerging {
  import opened Arithmetic
  import opened SimBlocks
  import opened StageInvariant
  import opened Relocation
  import opened SimPlacement
  import opened StripeInfo
  import opened ClusterSums
  import opened MergeFill
  import opened MergeRun
  import opened OptLayout
  import opened OptPlacement

  function Product(xs: seq<nat>): nat {
    if xs == [] then 1 else xs[0] * Product(xs[1..])
  }

  ghost predicate AllPositive(xs: seq<nat>) {
    forall i :: 0 <= i < |xs| ==> xs[i] > 0
  }

  /** check_parameter: with m data blocks in a group's tail, m is 0 or g, or the first stage brings exactly g of them
      together. */
  predicate CheckParameter(m: nat, g: nat, xs: seq<nat>, x: nat) {
    (m == 0 || m == g || (g % m == 0 && |xs| > 0 && xs[0] * m == g)) && x == Product(xs)
  }

  /** The tail size before a stage; every stage that the simulator can be in has one of these. */
  ghost predicate TailOk(cfg: Config, d: nat, xs: seq<nat>) {
    d == 0 || d == cfg.g || (|xs| > 0 && xs[0] * d == cfg.g)
  }

  function TailAfter(cfg: Config, d: nat, xi: nat): nat {
    if xi == 1 then d else NextTail(cfg, d, xi)
  }

  /** The data moved by each stage. */
  function Costs(cfg: Config, x: nat, d: nat, xs: seq<nat>): seq<nat>
    requires AllPositive(xs)
    decreases |xs|
  {
    if xs == [] then []
    else [StageCost(cfg, x / xs[0], d, xs[0])] + Costs(cfg, x / xs[0], TailAfter(cfg, d, xs[0]), xs[1..])
  }

  lemma TailStep(cfg: Config, d: nat, xs: seq<nat>)
    requires cfg.Valid() && AllPositive(xs) && xs != [] && TailOk(cfg, d, xs) && d <= cfg.g
    ensures TailOk(cfg, TailAfter(cfg, d, xs[0]), xs[1..]) && TailAfter(cfg, d, xs[0]) <= cfg.g
    ensures xs[0] > 1 ==> xs[0] * d <= cfg.g || d == cfg.g
  {
    if d == cfg.g && xs[0] > 1 {
      MulMono(2, xs[0], cfg.g);
    }
  }

  lemma NoStages(cfg: Config, d: nat, xs: seq<nat>)
    ensures Product(xs[..0]) == 1 && TailAfterAll(cfg, d, xs[..0]) == d
    ensures forall f :: FillAfterAll(cfg, d, f, xs[..0]) == f
  {
  }

  lemma StartRun(cfg: Config, d: nat, xs: seq<nat>, x: nat)
    requires AllPositive(xs) && CheckParameter(d, cfg.g, xs, x)
    ensures x == Product(xs) && TailOk(cfg, d, xs) && [] + Costs(cfg, x, d, xs) == Costs(cfg, x, d, xs)
  {
  }

  lemma EndRun(cfg: Config, x: nat, d: nat, xs: seq<nat>, before: seq<nat>)
    requires AllPositive(xs) && xs == []
    ensures before + Costs(cfg, x, d, xs) == before
  {
  }

  lemma CostsStep(cfg: Config, x: nat, d: nat, xs: seq<nat>, before: seq<nat>)
    requires cfg.Valid() && AllPositive(xs) && xs != [] && x == Product(xs) && TailOk(cfg, d, xs) && d <= cfg.g
    ensures AllPositive(xs[1..]) && xs[0] > 0 && x % xs[0] == 0 && x / xs[0] == Product(xs[1..])
    ensures TailOk(cfg, TailAfter(cfg, d, xs[0]), xs[1..]) && (xs[0] > 1 ==> xs[0] * d <= cfg.g || d == cfg.g)
    ensures before + Costs(cfg, x, d, xs)
         == before + [StageCost(cfg, x / xs[0], d, xs[0])] + Costs(cfg, x / xs[0], TailAfter(cfg, d, xs[0]), xs[1..])
  {
    hide StageCost, TailAfter, TailOk, Product;
    TailStep(cfg, d, xs);
    ProductStep(xs);
  }

  lemma ProductStep(xs: seq<nat>)
    requires AllPositive(xs) && xs != []
    ensures Product(xs) % xs[0] == 0 && Product(xs) / xs[0] == Product(xs[1..])
  {
    DivModUnique(Product(xs), xs[0], Product(xs[1..]), 0);
  }

  lemma StageFacts(cfg: Config, x: nat, d: nat, xi: nat)
    requires xi > 0 && d <= cfg.g
    ensures xi == 1 ==> TailAfter(cfg, d, xi) == d && x / xi == x && StageCost(cfg, x / xi, d, xi) == 0
    ensures xi > 1 ==> TailAfter(cfg, d, xi) == NextTail(cfg, d, xi)
    ensures TailAfter(cfg, d, xi) <= cfg.g
  {
    if xi == 1 {
      DivModUnique(x, 1, x, 0);
    }
  }

  /** The tail size after the stages. */
  function TailAfterAll(cfg: Config, d: nat, xs: seq<nat>): nat
    decreases |xs|
  {
    if xs == [] then d else TailAfterAll(cfg, TailAfter(cfg, d, xs[0]), xs[1..])
  }

  function StageFill(cfg: Config, d: nat, xi: nat, f: Fill): Fill {
    if xi <= 1 then f else NextFill(cfg, d, xi, f)
  }

  /** How the data of each group is spread after the stages. */
  function FillAfterAll(cfg: Config, d: nat, f: Fill, xs: seq<nat>): Fill
    decreases |xs|
  {
    if xs == [] then f else FillAfterAll(cfg, TailAfter(cfg, d, xs[0]), StageFill(cfg, d, xs[0], f), xs[1..])
  }

  lemma {:induction false} OneMoreFill(cfg: Config, d: nat, f: Fill, xs: seq<nat>, xi: nat)
    ensures FillAfterAll(cfg, d, f, xs + [xi])
         == StageFill(cfg, TailAfterAll(cfg, d, xs), xi, FillAfterAll(cfg, d, f, xs))
    decreases |xs|
  {
    hide TailAfter, StageFill;
    if xs == [] {
      assert [xi][1..] == [];
    } else {
      assert (xs + [xi])[1..] == xs[1..] + [xi];
      OneMoreFill(cfg, TailAfter(cfg, d, xs[0]), StageFill(cfg, d, xs[0], f), xs[1..], xi);
    }
  }

  lemma {:induction false} OneMoreStage(cfg: Config, d: nat, xs: seq<nat>, xi: nat)
    ensures Product(xs + [xi]) == Product(xs) * xi
    ensures TailAfterAll(cfg, d, xs + [xi]) == TailAfter(cfg, TailAfterAll(cfg, d, xs), xi)
    decreases |xs|
  {
    hide TailAfter;
    if xs == [] {
      assert [xi][1..] == [];
    } else {
      assert (xs + [xi])[1..] == xs[1..] + [xi];
      OneMoreStage(cfg, TailAfter(cfg, d, xs[0]), xs[1..], xi);
      assert xs[0] * (Product(xs[1..]) * xi) == xs[0] * Product(xs[1..]) * xi;
    }
  }

  /** The state after a stage. */
  datatype Snapshot = Snapshot(size: nat, x: nat, d: nat, view: View, stripes: seq<Stripe>)

  ghost predicate Sound(cfg: Config, s: Snapshot) {
    SimOk(cfg, s.size, s.x, s.d, s.view, s.stripes) && s.d <= cfg.g
  }

  /** The state is sound, and it is that after the given stages: the stripes are merged as many to one, the tails are as
      large, and the data of each group takes up as many clusters, as these stages say. */
  ghost predicate After(cfg: Config, s: Snapshot, size: nat, d: nat, f: Fill, done: seq<nat>) {
    && Sound(cfg, s) && s.size == size * Product(done) && s.x * s.size == cfg.x0 && s.d == TailAfterAll(cfg, d, done)
    && Evenly(cfg, s.x, s.view, FillAfterAll(cfg, d, f, done))
    && |s.view| == (if cfg.tails then cfg.l + 1 else 1) + cfg.l * (s.x * FillAfterAll(cfg, d, f, done).clusters)
  }

  /** The number of clusters, in all. */
  lemma SoundClusters(cfg: Config, s: Snapshot, f: Fill)
    requires Sound(cfg, s) && Evenly(cfg, s.x, s.view, f)
    ensures |s.view| == (if cfg.tails then cfg.l + 1 else 1) + cfg.l * (s.x * f.clusters)
  {
    hide Evenly, Total, HomeKind, HomeData, HomeLocals, HomeGlobals, StripeOk, DataTag;
    var st := StageInvariant.Stage(s.size, s.x, 2, s.d, s.d);
    forall c: nat | c < |s.view| && !cfg.Special(c) ensures InArea(cfg, Area(0, cfg.l, 0, s.x), c, s.view[c]) {
      assert ClusterReady(cfg, st, 0, c, s.view[c]);
      HeadInRange(cfg, st, s.view[c]);
    }
    ClustersInAll(cfg, s.x, s.view, f);
  }

  lemma HeadInRange(cfg: Config, st: StageInvariant.Stage, s: ClusterState)
    requires cfg.Valid() && st.Valid() && st.x * st.size == cfg.x0 && DataCluster(cfg, s) && DataTags(cfg, st, 0, s.blocks)
    ensures s.blocks != [] && s.blocks[0].group < cfg.l && s.blocks[0].stripe < st.x
  {
    var b := s.blocks[0];
    assert b in s.blocks;
    assert DataTag(cfg, st, 0, b);
    PositionBound(cfg, b.num);
    DivBelow(cfg.Origin(b.num), st.size, st.x);
    assert st.From(0) == 0;
  }

  lemma SoundSizes(cfg: Config, s: Snapshot)
    requires Sound(cfg, s)
    ensures s.x * s.size == cfg.x0
  {
  }

  lemma IsAfter(cfg: Config, s: Snapshot, size: nat, d: nat, f: Fill, fill: Fill, stages: seq<nat>, i: nat)
    requires i < |stages| && Sound(cfg, s) && s.size == size * Product(stages[..i]) * stages[i]
    requires s.d == TailAfter(cfg, TailAfterAll(cfg, d, stages[..i]), stages[i])
    requires Evenly(cfg, s.x, s.view, fill)
    requires fill == StageFill(cfg, TailAfterAll(cfg, d, stages[..i]), stages[i], FillAfterAll(cfg, d, f, stages[..i]))
    ensures After(cfg, s, size, d, f, stages[..i + 1])
    ensures s.size == size * Product(stages[..i + 1]) && s.d == TailAfterAll(cfg, d, stages[..i + 1])
    ensures fill == FillAfterAll(cfg, d, f, stages[..i + 1])
  {
    hide Evenly, StageFill, FillAfterAll, TailAfter, TailAfterAll, Product, Sound;
    SoundSizes(cfg, s);
    SoundClusters(cfg, s, fill);
    OneMoreStage(cfg, d, stages[..i], stages[i]);
    OneMoreFill(cfg, d, f, stages[..i], stages[i]);
    assert stages[..i + 1] == stages[..i] + [stages[i]];
    Regroup(size, Product(stages[..i]), stages[i]);
  }

  lemma Regroup(a: nat, b: nat, c: nat)
    ensures a * b * c == a * (b * c)
  {
  }

  class StagedStripeMerging {
    const cfg: Config
    const placement: DataPlacement
    var x: nat
    var stripes: seq<Stripe>
    /** The data moved by each stage so far. */
    var dc: seq<nat>
    ghost var size: nat
    ghost var d: nat
    ghost var fill: Fill

    ghost predicate Valid()
      reads this, placement, placement.clusters
    {
      && placement.Valid() && SimOk(cfg, size, x, d, placement.View(), stripes) && d <= cfg.g
      && Evenly(cfg, x, placement.View(), fill)
    }

    lemma ValidFacts()
      requires Valid()
      ensures cfg.Valid() && d <= cfg.g && Sound(cfg, Snapshot(size, x, d, placement.View(), stripes))
      ensures Evenly(cfg, x, placement.View(), fill)
    {
      hide Evenly;
    }

    /** Sets up x stripes of l groups with r data blocks each, placed by the OPT scheme. */
    constructor (l: nat, g: nat, r: nat, x: nat)
      requires l > 0 && g > 0 && r > 0 && x > 0
      ensures this.x == x && d == r % (g + 1) && dc == [] && size == 1
      ensures fill == Fill(r / (g + 1), r - r % (g + 1))
      ensures cfg.l == l && cfg.g == g && cfg.r == r && cfg.x0 == x && (cfg.tails <==> r % (g + 1) > 0)
      ensures Valid() && fresh(placement) && (forall c :: c in placement.clusters ==> fresh(c))
    {
      hide Evenly;
      var p, c, s := OptPlacement.Placement(l, g, r, x);
      cfg, placement, stripes := c, p, s;
      this.x, dc, size, d, fill := x, [], 1, r % (g + 1), Fill(r / (g + 1), r - r % (g + 1));
    }

    /** One stage; merging one stripe at a time is skipped. */
    method Stage(xi: nat)
      requires Valid() && xi > 0 && x % xi == 0 && (xi > 1 ==> xi * d <= cfg.g || d == cfg.g)
      modifies this, placement, placement.clusters
      ensures Valid() && x == old(x) / xi && d == TailAfter(cfg, old(d), xi) && size == old(size) * xi
      ensures dc == old(dc) + [StageCost(cfg, old(x) / xi, old(d), xi)]
      ensures fill == StageFill(cfg, old(d), xi, old(fill))
      ensures placement.Grown()
    {
      hide Evenly, NextFill, MergeCost, NextTail, SimOk, StageCost, TailAfter, DataPlacement.Valid, Config.Valid, StageInvariant.Stage.Valid,
        Cluster.Valid, DataPlacement.View;
      StageFacts(cfg, x, d, xi);
      var cost := 0;
      if xi > 1 {
        stripes, cost := RunStage(placement, cfg, x, xi, stripes, size, d, fill);
        size, fill := size * xi, NextFill(cfg, d, xi, fill);
      }
      d := TailAfter(cfg, d, xi);
      x, dc := x / xi, dc + [cost];
    }

    /** All stages. After each the clusters are as many as the data of the groups needs that is moved out of the tails, if
        room is used before new clusters are opened: l groups of the stripes, and one cluster for the global parities. */
    method StripeMerging(stageX: seq<nat>) returns (ghost history: seq<Snapshot>)
      requires Valid() && AllPositive(stageX) && CheckParameter(d, cfg.g, stageX, x) && dc == []
      modifies this, placement, placement.clusters
      ensures Valid() && dc == Costs(cfg, old(x), old(d), stageX)
      ensures |history| == |stageX|
      ensures forall i :: 0 <= i < |history| ==> After(cfg, history[i], old(size), old(d), old(fill), stageX[..i + 1])
      ensures history != [] ==> history[|history| - 1] == Snapshot(size, x, d, placement.View(), stripes)
    {
      hide Evenly, FillAfterAll, StageFill, After, AllPositive, CheckParameter, Costs, Product, Sound, StageCost, Cluster.State, TailAfter, TailAfterAll, TailOk,
        StagedStripeMerging.Valid, DataPlacement.Valid, Config.Valid, StageInvariant.Stage.Valid, Cluster.Valid, DataPlacement.View;
      history := [];
      ghost var rest := stageX;
      ValidFacts();
      StartRun(cfg, d, stageX, x);
      NoStages(cfg, d, stageX);
      for i := 0 to |stageX|
        invariant Valid() && AllPositive(rest) && rest == stageX[i..] && x == Product(rest) && TailOk(cfg, d, rest)
        invariant cfg.Valid() && d <= cfg.g
        invariant placement.Grown()
        invariant dc + Costs(cfg, x, d, rest) == Costs(cfg, old(x), old(d), stageX)
        invariant size == old(size) * Product(stageX[..i]) && d == TailAfterAll(cfg, old(d), stageX[..i])
        invariant |history| == i && forall t :: 0 <= t < i ==> After(cfg, history[t], old(size), old(d), old(fill), stageX[..t + 1])
        invariant fill == FillAfterAll(cfg, old(d), old(fill), stageX[..i])
        invariant i > 0 ==> history[i - 1] == Snapshot(size, x, d, placement.View(), stripes)
      {
        CostsStep(cfg, x, d, rest, dc);
        Stage(stageX[i]);
        ValidFacts();
        rest := rest[1..];
        IsAfter(cfg, Snapshot(size, x, d, placement.View(), stripes), old(size), old(d), old(fill), fill, stageX, i);
        history := history + [Snapshot(size, x, d, placement.View(), stripes)];
      }
      EndRun(cfg, x, d, rest, dc);
    }
  }

  // ----- the closed form of the relocation cost

  /** The closed form for one stage: xi - 1 times g * l blocks for every larger stripe, but nothing in the
      first stage, nothing without tails, and nothing when the stage is skipped. */
  function ClosedStage(m: nat, g: nat, l: nat, y: nat, xi: nat, first: bool): nat {
    if xi <= 1 || m == 0 || first then 0 else y * ((xi - 1) * g * l)
  }

  function ClosedForm(m: nat, g: nat, l: nat, x: nat, xs: seq<nat>, first: bool): seq<nat>
    requires AllPositive(xs)
    decreases |xs|
  {
    if xs == [] then []
    else [ClosedStage(m, g, l, x / xs[0], xs[0], first)] + ClosedForm(m, g, l, x / xs[0], xs[1..], false)
  }

  /** The relocation part of cal_cost_for_opt. */
  method CalDcForOpt(m: nat, g: nat, l: nat, x: nat, stageX: seq<nat>) returns (optDc: seq<nat>)
    requires AllPositive(stageX) && x == Product(stageX)
    ensures optDc == ClosedForm(m, g, l, x, stageX, true)
  {
    hide ClosedStage;
    optDc := [];
    var stageNum, x_ := 1, x;
    ghost var rest := stageX;
    for i := 0 to |stageX|
      invariant stageNum == i + 1 && AllPositive(rest) && rest == stageX[i..] && x_ == Product(rest)
      invariant optDc + ClosedForm(m, g, l, x_, rest, i == 0) == ClosedForm(m, g, l, x, stageX, true)
    {
      ProductStep(rest);
      var dc := StageDc(m, g, l, x_, stageX[i], stageNum);
      ClosedStep(m, g, l, x_, rest, i == 0, optDc);
      stageNum, x_, optDc, rest := stageNum + 1, x_ / stageX[i], optDc + [dc], rest[1..];
    }
  }

  lemma ClosedStep(m: nat, g: nat, l: nat, x: nat, xs: seq<nat>, first: bool, before: seq<nat>)
    requires AllPositive(xs) && xs != []
    ensures before + ClosedForm(m, g, l, x, xs, first)
         == before + [ClosedStage(m, g, l, x / xs[0], xs[0], first)] + ClosedForm(m, g, l, x / xs[0], xs[1..], false)
  {
    hide ClosedStage;
  }

  method StageDc(m: nat, g: nat, l: nat, x: nat, xi: nat, stageNum: nat) returns (dc: nat)
    requires xi > 0 && x % xi == 0 && stageNum > 0
    ensures dc == ClosedStage(m, g, l, x / xi, xi, stageNum == 1)
  {
    dc := 0;
    var s, n := 0, 0;
    ghost var y := x / xi;
    DivExact(1, x, xi);
    while s < x
      invariant s == n * xi && n <= y
      invariant dc == ClosedStage(m, g, l, n, xi, stageNum == 1)
    {
      if xi == 1 {
        break;
      }
      StagePass(x, xi, n, (xi - 1) * g * l);
      if !(m == 0 || stageNum == 1) {
        dc := dc + (xi - 1) * g * l;
      }
      s, n := s + xi, n + 1;
    }
    if n < y {
      StagePass(x, xi, n, 0);
    }
  }

  lemma StagePass(x: nat, xi: nat, n: nat, per: nat)
    requires xi > 0 && x == x / xi * xi
    ensures n * xi < x <==> n < x / xi
    ensures (n + 1) * xi == n * xi + xi && (n + 1) * per == n * per + per
  {
    if n < x / xi {
      MulMono(n + 1, x / xi, xi);
    } else {
      MulMono(x / xi, n, xi);
    }
  }

  /** After the first stage the simulator's costs are the closed form's. */
  lemma {:induction false} LaterCosts(cfg: Config, m: nat, x: nat, d: nat, xs: seq<nat>)
    requires cfg.Valid() && AllPositive(xs) && (cfg.tails <==> m > 0) && d == if m == 0 then 0 else cfg.g
    ensures Costs(cfg, x, d, xs) == ClosedForm(m, cfg.g, cfg.l, x, xs, false)
    decreases |xs|
  {
    if xs != [] {
      var xi, y := xs[0], x / xs[0];
      if xi > 1 && m > 0 {
        MulMono(2, xi, cfg.g);
        assert cfg.l * ((xi - 1) * cfg.g) == (xi - 1) * cfg.g * cfg.l;
      }
      assert StageCost(cfg, y, d, xi) == ClosedStage(m, cfg.g, cfg.l, y, xi, false);
      assert TailAfter(cfg, d, xi) == d;
      LaterCosts(cfg, m, y, d, xs[1..]);
    }
  }

  lemma FirstEntries(cfg: Config, m: nat, x: nat, xs: seq<nat>)
    requires AllPositive(xs) && xs != []
    ensures var a := Costs(cfg, x, m, xs);
      && |a| > 0 && a[0] == StageCost(cfg, x / xs[0], m, xs[0])
      && a[1..] == Costs(cfg, x / xs[0], TailAfter(cfg, m, xs[0]), xs[1..])
    ensures var b := ClosedForm(m, cfg.g, cfg.l, x, xs, true);
      |b| > 0 && b[0] == 0 && b[1..] == ClosedForm(m, cfg.g, cfg.l, x / xs[0], xs[1..], false)
  {
    hide StageCost, TailAfter;
  }

  /** The simulated relocation cost is the closed form at every stage exactly if there are no tails or the first stage
      brings tails of g blocks together. check_parameter also lets tails of g blocks start with a merging stage, which
      moves data at once. */
  lemma CostsAgree(cfg: Config, m: nat, x: nat, xs: seq<nat>)
    requires cfg.Valid() && (cfg.tails <==> m > 0) && x > 0 && AllPositive(xs) && xs != [] && CheckParameter(m, cfg.g, xs, x)
    ensures Costs(cfg, x, m, xs) == ClosedForm(m, cfg.g, cfg.l, x, xs, true) <==> m == 0 || xs[0] * m == cfg.g
  {
    hide Costs, ClosedForm;
    var xi, y := xs[0], x / xs[0];
    var a, b := Costs(cfg, x, m, xs), ClosedForm(m, cfg.g, cfg.l, x, xs, true);
    FirstEntries(cfg, m, x, xs);
    FirstCost(cfg, m, x, xs);
    if m == 0 || xi * m == cfg.g {
      LaterCosts(cfg, m, y, TailAfter(cfg, m, xi), xs[1..]);
      assert a == [a[0]] + a[1..] && b == [b[0]] + b[1..];
    }
  }

  lemma FirstCost(cfg: Config, m: nat, x: nat, xs: seq<nat>)
    requires cfg.Valid() && (cfg.tails <==> m > 0) && x > 0 && AllPositive(xs) && xs != [] && CheckParameter(m, cfg.g, xs, x)
    ensures StageCost(cfg, x / xs[0], m, xs[0]) == 0 <==> m == 0 || xs[0] * m == cfg.g
    ensures m == 0 ==> TailAfter(cfg, m, xs[0]) == 0
    ensures xs[0] * m == cfg.g ==> TailAfter(cfg, m, xs[0]) == cfg.g
  {
    var xi, y := xs[0], x / xs[0];
    ProductStep(xs);
    assert x == y * xi by { DivExact(1, x, xi); }
    if m > 0 && xi * m != cfg.g {
      assert m == cfg.g && xi > 1;
      MulMono(2, xi, cfg.g);
      MulMono(1, xi - 1, cfg.g);
      MulMono(1, cfg.l, (xi - 1) * cfg.g);
      MulMono(1, y, cfg.l * ((xi - 1) * cfg.g));
    }
  }

  /** An accepted list of stages for which they differ: 4 stripes of 2 groups of 2 blocks, g = 2, merged two by two twice.
      The tails are full from the start, and already the first stage moves 8 blocks. */
  lemma CostsDiffer(cfg: Config)
    requires cfg == OptConfigFor(2, 2, 2, 4)
    ensures CheckParameter(2, cfg.g, [2, 2], 4) && AllPositive([2, 2])
    ensures Costs(cfg, 4, 2, [2, 2]) == [8, 4] && ClosedForm(2, cfg.g, cfg.l, 4, [2, 2], true) == [0, 4]
  {
    assert [2, 2][1..] == [2] && [2][1..] == [];
    assert Product([2]) == 2 * Product([]);
    assert StageCost(cfg, 2, 2, 2) == 8 && StageCost(cfg, 1, 2, 2) == 4 && TailAfter(cfg, 2, 2) == 2;
    assert Costs(cfg, 2, 2, [2]) == [4] + Costs(cfg, 1, 2, []);
    assert ClosedForm(2, 2, 2, 2, [2], false) == [4] + ClosedForm(2, 2, 2, 1, [], false);
  }
}
