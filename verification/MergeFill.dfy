/** How the data clusters of each group of a stripe fill up in a merge. */
module MergeFill {
  import opened SimBlocks
  import opened StageInvariant
  import opened Relocation
  import opened ClusterSums
  import opened ClusterPacking
  import opened MergeStep
  import opened MergeStage

  /** The data clusters of one group of one stripe, and the blocks in them. */
  datatype Fill = Fill(clusters: nat, blocks: nat)

  function FillOf(f: Fill, q: Measure): nat { if q.Clusters? then f.clusters else f.blocks }

  /** A merge of xi stripes brings together their clusters of each group, and adds what is moved out of the group's tails:
      into room in these clusters first, then into new ones of g + 1 blocks. */
  function NextFill(cfg: Config, d: nat, xi: nat, f: Fill): Fill
    requires xi > 0
  {
    var c, b, moved := xi * f.clusters, xi * f.blocks, if cfg.tails && xi * d > cfg.g then (xi - 1) * cfg.g else 0;
    if moved == 0 then Fill(c, b) else Fill(c + Opened(cfg.g, c, b, moved), b + moved)
  }

  /** Between stages: f in each group of each of the x stripes. */
  ghost predicate Evenly(cfg: Config, x: nat, view: View, f: Fill) {
    forall e: nat, t: nat, q :: e < cfg.l && t < x ==> SumOf(cfg, Cell(e, t), view, q) == FillOf(f, q)
  }

  /** The clusters of a state between stages: the special ones, and as many for each group of each stripe as f says. */
  lemma ClustersInAll(cfg: Config, x: nat, view: View, f: Fill)
    requires cfg.Valid() && cfg.gId < |view| && Evenly(cfg, x, view, f)
    requires forall c: nat :: c < |view| && !cfg.Special(c) ==> InArea(cfg, Area(0, cfg.l, 0, x), c, view[c])
    ensures |view| == (if cfg.tails then cfg.l + 1 else 1) + cfg.l * (x * f.clusters)
  {
    hide SumOf, Config.Special;
    forall e: nat, t: nat | e < cfg.l && t < x ensures SumOf(cfg, Cell(e, t), view, Clusters) == f.clusters {
      EvenlyHere(cfg, x, view, f, e, t);
    }
    SumEvenGroups(cfg, cfg.l, x, view, Clusters, f.clusters);
    NotSpecialCount(cfg, Area(0, cfg.l, 0, x), view, |view|);
    assert view[..|view|] == view;
    SpecialCount(cfg);
  }

  lemma EvenlyHere(cfg: Config, x: nat, view: View, f: Fill, e: nat, t: nat)
    requires Evenly(cfg, x, view, f) && e < cfg.l && t < x
    ensures SumOf(cfg, Cell(e, t), view, Clusters) == f.clusters
  {
    hide SumOf;
    assert FillOf(f, Clusters) == f.clusters;
    assert SumOf(cfg, Cell(e, t), view, Clusters) == FillOf(f, Clusters);
  }

  /** How many of the clusters below n are special. */
  function SpecialBelow(cfg: Config, n: nat): nat {
    if n <= cfg.Base() then 0 else if n <= cfg.gId then n - cfg.Base() else cfg.gId + 1 - cfg.Base()
  }

  lemma SpecialCount(cfg: Config)
    requires cfg.Valid()
    ensures forall n: nat :: n > cfg.gId ==> SpecialBelow(cfg, n) == if cfg.tails then cfg.l + 1 else 1
  {
  }

  lemma {:induction false} NotSpecialCount(cfg: Config, a: Area, view: View, n: nat)
    requires cfg.Valid() && n <= |view| && forall c: nat :: c < |view| && !cfg.Special(c) ==> InArea(cfg, a, c, view[c])
    ensures SumOf(cfg, a, view[..n], Clusters) + SpecialBelow(cfg, n) == n
    decreases n
  {
    hide InArea;
    if n > 0 {
      NotSpecialCount(cfg, a, view, n - 1);
      assert view[..n][..n - 1] == view[..n - 1];
      if cfg.Special(n - 1) {
        SpecialOutside(cfg, a, n - 1, view[n - 1]);
      }
    }
  }

  lemma SpecialOutside(cfg: Config, a: Area, c: nat, s: ClusterState)
    requires cfg.Special(c)
    ensures !InArea(cfg, a, c, s)
  {
  }

  lemma EvenStart(cfg: Config, st: Stage, view: View, f: Fill, f2: Fill)
    requires Evenly(cfg, st.x, view, f)
    ensures EvenAt(cfg, st, 0, view, f, f2)
  {
    hide SumOf, FillOf;
  }

  lemma EvenEnd(cfg: Config, st: Stage, y: nat, view: View, f: Fill, f2: Fill)
    requires st.x == y * st.xi && EvenAt(cfg, st, y, view, f, f2)
    ensures Evenly(cfg, y, view, f2)
  {
    hide SumOf, FillOf;
    forall e: nat, t: nat, q | e < cfg.l && t < y ensures SumOf(cfg, Cell(e, t), view, q) == FillOf(f2, q) {
      EvenHere(cfg, st, y, view, f, f2, e, t, q);
    }
  }

  /** Between merges: the stripes not merged yet have f in each group, the larger ones f2. */
  ghost predicate EvenAt(cfg: Config, st: Stage, n: nat, view: View, f: Fill, f2: Fill) {
    forall e: nat, t: nat, q :: e < cfg.l && st.ValidTag(n, t) ==>
      SumOf(cfg, Cell(e, t), view, q) == FillOf(if t < n then f2 else f, q)
  }

  /** The tail cluster of group e had its turn. */
  predicate HadTurn(cfg: Config, visited: set<nat>, e: nat) {
    cfg.tails && e < cfg.l && exists c :: c in visited && c == cfg.Base() + e
  }

  /** What the turns of the visited clusters did. */
  ghost predicate TurnSums(cfg: Config, n: nat, view0: View, view: View, visited: set<nat>, per: nat) {
    forall e: nat, t: nat, q :: SumOf(cfg, Cell(e, t), view, q)
      == SumOf(cfg, Cell(e, t), view0, q)
         + if t == n && per > 0 && HadTurn(cfg, visited, e)
           then Gain(q, cfg.g, SumOf(cfg, Cell(e, t), view0, Clusters), SumOf(cfg, Cell(e, t), view0, Blocks), per) else 0
  }

  lemma NoTurnSums(cfg: Config, n: nat, view: View, per: nat)
    ensures TurnSums(cfg, n, view, view, {}, per)
  {
    hide SumOf, Gain;
  }

  lemma TailTurn(cfg: Config, visited: set<nat>, c: nat, e: nat)
    requires cfg.Valid() && c !in visited
    ensures var tail := cfg.Special(c) && c < cfg.gId;
      && (HadTurn(cfg, visited + {c}, e) <==> HadTurn(cfg, visited, e) || (tail && e == TailGroup(cfg, c)))
      && (tail && e == TailGroup(cfg, c) ==> !HadTurn(cfg, visited, e))
  {
  }

  lemma TurnSumsNext(cfg: Config, n: nat, view0: View, view1: View, view2: View, visited: set<nat>, c: nat, per: nat,
      moved: nat)
    requires cfg.Valid() && c !in visited && TurnSums(cfg, n, view0, view1, visited, per)
    requires Grew(cfg, n, TailGroup(cfg, c), view1, view2, moved)
    requires moved == if cfg.Special(c) && c < cfg.gId then per else 0
    ensures TurnSums(cfg, n, view0, view2, visited + {c}, per)
  {
    hide SumOf, Gain, HadTurn, TailGroup, Config.Special;
    forall e: nat, t: nat, q
      ensures SumOf(cfg, Cell(e, t), view2, q)
        == SumOf(cfg, Cell(e, t), view0, q)
           + if t == n && per > 0 && HadTurn(cfg, visited + {c}, e)
             then Gain(q, cfg.g, SumOf(cfg, Cell(e, t), view0, Clusters), SumOf(cfg, Cell(e, t), view0, Blocks), per) else 0
    {
      TailTurn(cfg, visited, c, e);
      SumsAt(cfg, n, view0, view1, visited, per, e, t, Clusters);
      SumsAt(cfg, n, view0, view1, visited, per, e, t, Blocks);
      SumsAt(cfg, n, view0, view1, visited, per, e, t, q);
      GrewAt(cfg, n, TailGroup(cfg, c), view1, view2, moved, e, t, q);
    }
  }

  lemma SumsAt(cfg: Config, n: nat, view0: View, view: View, visited: set<nat>, per: nat, e: nat, t: nat, q: Measure)
    requires TurnSums(cfg, n, view0, view, visited, per)
    ensures SumOf(cfg, Cell(e, t), view, q)
      == SumOf(cfg, Cell(e, t), view0, q)
         + if t == n && per > 0 && HadTurn(cfg, visited, e)
           then Gain(q, cfg.g, SumOf(cfg, Cell(e, t), view0, Clusters), SumOf(cfg, Cell(e, t), view0, Blocks), per) else 0
  {
    hide SumOf, Gain, HadTurn;
  }

  lemma GrewAt(cfg: Config, n: nat, i: nat, view0: View, view: View, moved: nat, e: nat, t: nat, q: Measure)
    requires Grew(cfg, n, i, view0, view, moved)
    ensures SumOf(cfg, Cell(e, t), view, q)
      == SumOf(cfg, Cell(e, t), view0, q)
         + if e == i && t == n && moved > 0
           then Gain(q, cfg.g, SumOf(cfg, Cell(e, t), view0, Clusters), SumOf(cfg, Cell(e, t), view0, Blocks), moved) else 0
  {
    hide SumOf, Gain;
  }

  function JoinedFill(st: Stage, n: nat, f: Fill, f2: Fill, t: nat, q: Measure): nat {
    if t == n then st.xi * FillOf(f, q) else FillOf(if t < n then f2 else f, q)
  }

  /** After the renaming of merge n: the larger stripe has the clusters of all xi. */
  ghost predicate Joined(cfg: Config, st: Stage, n: nat, view: View, f: Fill, f2: Fill) {
    forall e: nat, t: nat, q :: e < cfg.l && st.ValidTag(n + 1, t) ==>
      SumOf(cfg, Cell(e, t), view, q) == JoinedFill(st, n, f, f2, t, q)
  }

  lemma JoinedAt(cfg: Config, st: Stage, n: nat, view: View, f: Fill, f2: Fill, e: nat, t: nat, q: Measure)
    requires Joined(cfg, st, n, view, f, f2) && e < cfg.l && st.ValidTag(n + 1, t)
    ensures SumOf(cfg, Cell(e, t), view, q) == JoinedFill(st, n, f, f2, t, q)
  {
    hide SumOf, JoinedFill;
  }

  lemma EvenHere(cfg: Config, st: Stage, n: nat, view: View, f: Fill, f2: Fill, e: nat, t: nat, q: Measure)
    requires EvenAt(cfg, st, n, view, f, f2) && e < cfg.l && st.ValidTag(n, t)
    ensures SumOf(cfg, Cell(e, t), view, q) == FillOf(if t < n then f2 else f, q)
  {
    hide SumOf, FillOf, Stage.ValidTag;
  }

  /** Once every tail cluster had its turn, the larger stripe is filled as NextFill says. */
  lemma TurnsFill(cfg: Config, st: Stage, n: nat, view0: View, view: View, visited: set<nat>, f: Fill, f2: Fill)
    requires cfg.Valid() && st.Valid() && f2 == NextFill(cfg, st.d, st.xi, f)
    requires TurnSums(cfg, n, view0, view, visited, DataToMove(cfg, st))
    requires forall c: nat :: cfg.Special(c) ==> c in visited
    requires Joined(cfg, st, n, view0, f, f2)
    ensures EvenAt(cfg, st, n + 1, view, f, f2)
  {
    hide SumOf, HadTurn, Stage.ValidTag, Opened, Config.Special;
    forall e: nat, t: nat, q | e < cfg.l && st.ValidTag(n + 1, t)
      ensures SumOf(cfg, Cell(e, t), view, q) == FillOf(if t < n + 1 then f2 else f, q)
    {
      EveryTail(cfg, visited, e);
      SumsAt(cfg, n, view0, view, visited, DataToMove(cfg, st), e, t, q);
      JoinedAt(cfg, st, n, view0, f, f2, e, t, Clusters);
      JoinedAt(cfg, st, n, view0, f, f2, e, t, Blocks);
    }
  }

  lemma EveryTail(cfg: Config, visited: set<nat>, e: nat)
    requires cfg.Valid() && e < cfg.l && forall c: nat :: cfg.Special(c) ==> c in visited
    ensures HadTurn(cfg, visited, e) <==> cfg.tails
  {
    if cfg.tails {
      var c: nat := cfg.Base() + e;
      assert cfg.Special(c);
    }
  }
}
