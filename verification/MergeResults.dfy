/** What the simulator's state between stages says: every listed block is in exactly one place, nothing else is stored,
    and no cluster but the one of the global parities has more than g + 1 blocks of a stripe. */
module MergeResults {
  import opened Arithmetic
  import opened SimBlocks
  import opened StageInvariant
  import opened Relocation
  import opened MergeOne
  import opened StripeInfo
  import opened MergeRun

  predicate HasId(b: Block, id: BlockId) {
    b.kind == id.kind && b.num == id.num
  }

  /** The only block with this identifier is b, in cluster c. */
  ghost predicate OnlyPlace(view: View, id: BlockId, c: nat, b: Block) {
    && c < |view| && b in view[c].blocks && HasId(b, id)
    && forall c2: nat, b2 :: c2 < |view| && b2 in view[c2].blocks && HasId(b2, id) ==> c2 == c && b2 == b
  }

  /** The view between stages, cluster by cluster. */
  lemma BetweenStages(cfg: Config, size: nat, x: nat, d: nat, view: View, stripes: seq<Stripe>, c: nat)
    requires SimOk(cfg, size, x, d, view, stripes) && c < |view|
    ensures ClusterReady(cfg, Stage(size, x, 2, d, d), 0, c, view[c])
  {
    hide ClusterReady, StripeOk;
  }

  lemma DataPlace(cfg: Config, size: nat, x: nat, d: nat, view: View, stripes: seq<Stripe>, num: nat) returns (c: nat, b: Block)
    requires SimOk(cfg, size, x, d, view, stripes) && num < cfg.DataCount()
    ensures OnlyPlace(view, BlockId(D, num), c, b)
    ensures cfg.l * cfg.r > 0 && b.group == cfg.DataGroup(num) && b.stripe == cfg.Origin(num) / size
  {
    hide Total, Count, StripeOk, HomeData, HomeLocals, HomeGlobals, DataCluster, Config.Origin, Config.DataGroup, Config.Special;
    assert Total(view, DataNum(num)) == 1;
    c := TotalSome(view, DataNum(num));
    b := CountPositive(view[c].blocks, DataNum(num));
    BetweenStages(cfg, size, x, d, view, stripes, c);
    assert DataTag(cfg, Stage(size, x, 2, d, d), 0, b);
    forall c2: nat, b2 | c2 < |view| && b2 in view[c2].blocks && HasId(b2, BlockId(D, num)) ensures c2 == c && b2 == b {
      CountAtLeast(view[c2].blocks, b2, DataNum(num));
      if c2 < c {
        TotalTwo(view, DataNum(num), c2, c);
      } else if c < c2 {
        TotalTwo(view, DataNum(num), c, c2);
      }
      BetweenStages(cfg, size, x, d, view, stripes, c2);
      assert DataTag(cfg, Stage(size, x, 2, d, d), 0, b2);
    }
  }

  /** The cluster that holds the local parities of group i. */
  function LocalHome(cfg: Config, i: nat): nat
    requires cfg.Valid() && i < cfg.l
  {
    if cfg.tails then cfg.gId - cfg.l + i else cfg.gId
  }

  lemma LocalDecode(cfg: Config, a: Block, b: Block)
    requires LocalTag(cfg, a) && LocalTag(cfg, b) && a.num == b.num && a.group < cfg.l && b.group < cfg.l
    ensures a.group == b.group && a.stripe == b.stripe
  {
    DivModUnique(a.num, cfg.l, a.stripe, a.group);
    DivModUnique(b.num, cfg.l, b.stripe, b.group);
  }

  lemma LocalPlace(cfg: Config, size: nat, x: nat, d: nat, view: View, stripes: seq<Stripe>, i: nat, j: nat) returns (c: nat, b: Block)
    requires SimOk(cfg, size, x, d, view, stripes) && i < cfg.l && j < x
    ensures OnlyPlace(view, LocalId(cfg, i, j), c, b) && b.group == i && b.stripe == j && cfg.Special(c)
  {
    hide Total, Count, StripeOk, HomeData, HomeGlobals, DataTags;
    var st := Stage(size, x, 2, d, d);
    assert st.ValidTag(0, j);
    c := LocalHome(cfg, i);
    BetweenStages(cfg, size, x, d, view, stripes, c);
    assert cfg.Lo(c) <= i < cfg.Hi(c);
    b := CountPositive(view[c].blocks, LocalOf(i, j));
    forall c2: nat, b2 | c2 < |view| && b2 in view[c2].blocks && HasId(b2, LocalId(cfg, i, j)) ensures c2 == c && b2 == b {
      BetweenStages(cfg, size, x, d, view, stripes, c2);
      LocalDecode(cfg, b, b2);
    }
  }

  lemma GlobalDecode(cfg: Config, b: Block, j: nat, e: nat)
    requires GlobalTag(cfg, b) && e < cfg.g && b.num == cfg.GlobalId(j, e)
    ensures b.stripe == j
  {
    DivModUnique(b.num, cfg.g, b.stripe, b.num - b.stripe * cfg.g);
    DivModUnique(b.num, cfg.g, j, e);
  }

  lemma GlobalPlace(cfg: Config, size: nat, x: nat, d: nat, view: View, stripes: seq<Stripe>, e: nat, j: nat) returns (b: Block)
    requires SimOk(cfg, size, x, d, view, stripes) && e < cfg.g && j < x
    ensures OnlyPlace(view, BlockId(G, cfg.GlobalId(j, e)), cfg.gId, b) && b.group == cfg.l && b.stripe == j
  {
    hide Total, Count, StripeOk, HomeData, HomeLocals, DataTags;
    var st := Stage(size, x, 2, d, d);
    assert st.ValidTag(0, j);
    BetweenStages(cfg, size, x, d, view, stripes, cfg.gId);
    b := CountPositive(view[cfg.gId].blocks, GlobalNum(cfg.GlobalId(j, e)));
    GlobalDecode(cfg, b, j, e);
    forall c2: nat, b2 | c2 < |view| && b2 in view[c2].blocks && HasId(b2, BlockId(G, cfg.GlobalId(j, e)))
      ensures c2 == cfg.gId && b2 == b
    {
      BetweenStages(cfg, size, x, d, view, stripes, c2);
      GlobalDecode(cfg, b2, j, e);
    }
  }

  /** Every block that a stripe lists is in exactly one cluster, one that the stripe records, tagged with that
      stripe and group. */
  lemma ListedOnce(cfg: Config, size: nat, x: nat, d: nat, view: View, stripes: seq<Stripe>, j: nat, i: nat, id: BlockId)
    returns (c: nat, b: Block)
    requires SimOk(cfg, size, x, d, view, stripes) && j < x && i < |stripes[j].info| && id in stripes[j].info[i]
    ensures OnlyPlace(view, id, c, b) && b.group == i && b.stripe == j && c in stripes[j].place2cluster
  {
    hide OnlyPlace, Total, Count, ViewReady, Config.Origin, Config.DataGroup, Config.Special, GlobalInfo, DataIds;
    assert StripeOk(cfg, size, view, stripes, j);
    if i == cfg.l {
      var e :| 0 <= e < cfg.g && GlobalInfo(cfg, j)[e] == id;
      c := cfg.gId;
      b := GlobalPlace(cfg, size, x, d, view, stripes, e, j);
    } else if id == LocalId(cfg, i, j) {
      c, b := LocalPlace(cfg, size, x, d, view, stripes, i, j);
    } else {
      var num := ListedData(cfg, size, x, j, i, id);
      c, b := DataPlace(cfg, size, x, d, view, stripes, num);
    }
    PlaceRecorded(cfg, size, x, d, view, stripes, j, c, b, id);
  }

  lemma ListedData(cfg: Config, size: nat, x: nat, j: nat, i: nat, id: BlockId) returns (num: nat)
    requires cfg.Valid() && i < cfg.l && size > 0 && x * size == cfg.x0 && j < x
    requires id in GroupInfo(cfg, size, j, i) && id != LocalId(cfg, i, j)
    ensures id == BlockId(D, num) && num < cfg.DataCount() && cfg.l * cfg.r > 0
    ensures cfg.DataGroup(num) == i && cfg.Origin(num) / size == j
  {
    MulMono(j, j + 1, size);
    MulMono(j + 1, x, size);
    var s := DataIds(cfg, i, j * size, (j + 1) * size);
    assert id in s;
    DataIdsKind(cfg, i, j * size, (j + 1) * size);
    num := id.num;
    assert id == BlockId(D, num);
    InDataIds(cfg, i, j * size, (j + 1) * size, num);
    OriginRange(cfg, size, j, num);
  }

  lemma OriginRange(cfg: Config, size: nat, j: nat, num: nat)
    requires cfg.l * cfg.r > 0 && size > 0 && j * size <= cfg.Origin(num) < (j + 1) * size
    ensures cfg.Origin(num) / size == j
    ensures (j + 1) * size <= cfg.x0 ==> num < cfg.DataCount()
  {
    var o := cfg.Origin(num);
    DivModUnique(o, size, j, o - j * size);
    DivBelow(num, cfg.l * cfg.r, cfg.x0);
  }

  lemma PlaceRecorded(cfg: Config, size: nat, x: nat, d: nat, view: View, stripes: seq<Stripe>, j: nat, c: nat, b: Block, id: BlockId)
    requires SimOk(cfg, size, x, d, view, stripes) && j < x && OnlyPlace(view, id, c, b) && b.stripe == j
    ensures c in stripes[j].place2cluster
  {
    hide Total, Count, DataTags, HomeData, HomeLocals, HomeGlobals, InfoOk;
    assert StripeOk(cfg, size, view, stripes, j);
    BetweenStages(cfg, size, x, d, view, stripes, c);
  }

  /** Nothing is stored that no stripe lists. */
  lemma StoredIsListed(cfg: Config, size: nat, x: nat, d: nat, view: View, stripes: seq<Stripe>, c: nat, b: Block)
    requires SimOk(cfg, size, x, d, view, stripes) && c < |view| && b in view[c].blocks
    ensures b.stripe < x && b.group < |stripes[b.stripe].info| && BlockId(b.kind, b.num) in stripes[b.stripe].info[b.group]
  {
    hide Total, Count, HomeData, ViewReady, DataIds, GlobalInfo;
    BetweenStages(cfg, size, x, d, view, stripes, c);
    if b.kind == D {
      StoredData(cfg, size, x, d, b);
    }
    assert StripeOk(cfg, size, view, stripes, b.stripe);
    if b.kind == G {
      var e := b.num - b.stripe * cfg.g;
      assert GlobalInfo(cfg, b.stripe)[e] == BlockId(G, b.num);
    } else {
      assert stripes[b.stripe].info[b.group] == GroupInfo(cfg, size, b.stripe, b.group);
    }
  }

  lemma StoredData(cfg: Config, size: nat, x: nat, d: nat, b: Block)
    requires cfg.Valid() && size > 0 && x * size == cfg.x0 && DataTag(cfg, Stage(size, x, 2, d, d), 0, b)
    ensures b.stripe < x && b.group < cfg.l && BlockId(D, b.num) in GroupInfo(cfg, size, b.stripe, b.group)
  {
    var o, j := cfg.Origin(b.num), b.stripe;
    assert j == o / size;
    DivBelow(b.num, cfg.l * cfg.r, cfg.x0);
    DivBelow(o, size, x);
    DivBelow(b.num % (cfg.l * cfg.r), cfg.r, cfg.l);
    assert o == j * size + o % size && (j + 1) * size == j * size + size;
    InDataIds(cfg, b.group, j * size, (j + 1) * size, b.num);
  }

  /** How many blocks of a stripe are in a list. */
  function OfStripe(s: seq<Block>, t: nat): nat {
    if s == [] then 0 else OfStripe(s[..|s| - 1], t) + if s[|s| - 1].stripe == t then 1 else 0
  }

  lemma {:induction false} OfStripeBound(s: seq<Block>, t: nat)
    ensures OfStripe(s, t) <= |s|
  {
    if s != [] {
      OfStripeBound(s[..|s| - 1], t);
    }
  }

  lemma {:induction false} OfStripeSplit(s: seq<Block>, i: nat, t: nat)
    requires forall b :: b in s ==> b.kind != G && b.group == i
    ensures OfStripe(s, t) == Count(s, DataOf(t)) + Count(s, LocalOf(i, t))
  {
    if s != [] {
      assert s[|s| - 1] in s;
      OfStripeSplit(s[..|s| - 1], i, t);
    }
  }

  /** No cluster but the one of the global parities holds more than g + 1 blocks of one stripe. */
  lemma AtMostPerStripe(cfg: Config, size: nat, x: nat, d: nat, view: View, stripes: seq<Stripe>, c: nat, t: nat)
    requires SimOk(cfg, size, x, d, view, stripes) && d <= cfg.g && c < |view| && c != cfg.gId && t < x
    ensures OfStripe(view[c].blocks, t) <= cfg.g + 1
  {
    hide Total, Count, DataTags, LocalTag, GlobalTag;
    var st := Stage(size, x, 2, d, d);
    BetweenStages(cfg, size, x, d, view, stripes, c);
    if cfg.Special(c) {
      var i := cfg.Lo(c);
      assert st.ValidTag(0, t) && st.PerTag(0, t) == d;
      OfStripeSplit(view[c].blocks, i, t);
    } else {
      OfStripeBound(view[c].blocks, t);
    }
  }
}
