/** What a stripe knows about its blocks, and how merging stripes joins it. */
module StripeInfo {
  import opened Arithmetic
  import opened SimBlocks
  import opened StageInvariant

  datatype BlockId = BlockId(kind: Kind, num: nat)

  /** A stripe: its identifier, the identifiers of its blocks by group (data, then the local parity; the last
      list has the global parities), and the clusters that hold its blocks. */
  datatype Stripe = Stripe(id: nat, info: seq<seq<BlockId>>, place2cluster: set<nat>)

  /** The data identifiers from number lo on. */
  function DataRun(lo: nat, count: nat): (s: seq<BlockId>)
    ensures |s| == count && forall t :: 0 <= t < count ==> s[t] == BlockId(D, lo + t)
  {
    seq(count, t requires 0 <= t < count => BlockId(D, lo + t))
  }

  /** The number of the first block of group i in original stripe q. */
  function FirstOf(cfg: Config, i: nat, q: nat): nat {
    q * (cfg.l * cfg.r) + i * cfg.r
  }

  /** The data identifiers that group i has in the original stripes q0 to q1 - 1. */
  function DataIds(cfg: Config, i: nat, q0: nat, q1: nat): seq<BlockId>
    requires q0 <= q1
    decreases q1
  {
    if q0 == q1 then [] else DataIds(cfg, i, q0, q1 - 1) + DataRun(FirstOf(cfg, i, q1 - 1), cfg.r)
  }

  lemma {:induction false} DataIdsConcat(cfg: Config, i: nat, q0: nat, q1: nat, q2: nat)
    requires q0 <= q1 <= q2
    ensures DataIds(cfg, i, q0, q2) == DataIds(cfg, i, q0, q1) + DataIds(cfg, i, q1, q2)
    decreases q2
  {
    hide FirstOf;
    if q1 < q2 {
      DataIdsConcat(cfg, i, q0, q1, q2 - 1);
    }
  }

  function LocalId(cfg: Config, i: nat, j: nat): BlockId { BlockId(L, i + j * cfg.l) }

  /** The identifiers of stripe j when a stripe is `size` original ones. */
  function GroupInfo(cfg: Config, size: nat, j: nat, i: nat): seq<BlockId> {
    MulMono(j, j + 1, size);
    DataIds(cfg, i, j * size, (j + 1) * size) + [LocalId(cfg, i, j)]
  }

  function GlobalInfo(cfg: Config, j: nat): (s: seq<BlockId>)
    ensures |s| == cfg.g && forall e :: 0 <= e < cfg.g ==> s[e] == BlockId(G, cfg.GlobalId(j, e))
  {
    seq(cfg.g, e requires 0 <= e < cfg.g => BlockId(G, cfg.GlobalId(j, e)))
  }

  ghost predicate InfoOk(cfg: Config, size: nat, j: nat, info: seq<seq<BlockId>>) {
    && |info| == cfg.l + 1 && info[cfg.l] == GlobalInfo(cfg, j)
    && forall i :: 0 <= i < cfg.l ==> info[i] == GroupInfo(cfg, size, j, i)
  }

  // ----- who is in a group's list

  lemma {:induction false} InDataIds(cfg: Config, i: nat, q0: nat, q1: nat, num: nat)
    requires cfg.Valid() && q0 <= q1 && i < cfg.l
    ensures cfg.l * cfg.r > 0
    ensures BlockId(D, num) in DataIds(cfg, i, q0, q1) <==> q0 <= cfg.Origin(num) < q1 && cfg.DataGroup(num) == i
    decreases q1
  {
    hide Config.Origin, Config.DataGroup, FirstOf;
    assert cfg.l * cfg.r > 0 by { MulMono(1, cfg.l, cfg.r); }
    if q0 < q1 {
      InDataIds(cfg, i, q0, q1 - 1, num);
      var run := DataRun(FirstOf(cfg, i, q1 - 1), cfg.r);
      PlaceOfNum(cfg, i, q1 - 1, num);
      if cfg.Origin(num) == q1 - 1 && cfg.DataGroup(num) == i {
        assert run[num - FirstOf(cfg, i, q1 - 1)] == BlockId(D, num);
      }
    }
  }

  lemma PlaceOfNum(cfg: Config, i: nat, q: nat, num: nat)
    requires cfg.Valid() && i < cfg.l && cfg.l * cfg.r > 0
    ensures FirstOf(cfg, i, q) <= num < FirstOf(cfg, i, q) + cfg.r <==> cfg.Origin(num) == q && cfg.DataGroup(num) == i
  {
    var w := cfg.l * cfg.r;
    if FirstOf(cfg, i, q) <= num < FirstOf(cfg, i, q) + cfg.r {
      var t := num - FirstOf(cfg, i, q);
      PackBelow(i, cfg.l, cfg.r, t);
      DivModUnique(num, w, q, i * cfg.r + t);
      DivModUnique(i * cfg.r + t, cfg.r, i, t);
    }
    if cfg.Origin(num) == q && cfg.DataGroup(num) == i {
      var m := num % w;
      assert num == q * w + m && m == i * cfg.r + m % cfg.r;
    }
  }

  // ----- merging

  /** The data identifiers of a list. */
  function DataOnly(s: seq<BlockId>): seq<BlockId> {
    if s == [] then [] else DataOnly(s[..|s| - 1]) + if s[|s| - 1].kind == D then [s[|s| - 1]] else []
  }

  lemma {:induction false} DataOnlyAll(s: seq<BlockId>)
    requires forall id :: id in s ==> id.kind == D
    ensures DataOnly(s) == s
  {
    if s != [] {
      assert s[|s| - 1] in s;
      DataOnlyAll(s[..|s| - 1]);
    }
  }

  lemma {:induction false} DataIdsKind(cfg: Config, i: nat, q0: nat, q1: nat)
    requires q0 <= q1
    ensures forall id :: id in DataIds(cfg, i, q0, q1) ==> id.kind == D
    decreases q1
  {
    hide FirstOf;
    if q0 < q1 {
      DataIdsKind(cfg, i, q0, q1 - 1);
    }
  }

  lemma GroupData(cfg: Config, size: nat, j: nat, i: nat)
    ensures j * size <= (j + 1) * size && DataOnly(GroupInfo(cfg, size, j, i)) == DataIds(cfg, i, j * size, (j + 1) * size)
  {
    MulMono(j, j + 1, size);
    var s := DataIds(cfg, i, j * size, (j + 1) * size);
    DataIdsKind(cfg, i, j * size, (j + 1) * size);
    DataOnlyAll(s);
    assert GroupInfo(cfg, size, j, i)[..|s|] == s;
  }

  /** Appends the data identifiers of a group to those collected so far. */
  method CollectData(group: seq<BlockId>, sofar: seq<BlockId>) returns (all: seq<BlockId>)
    ensures all == sofar + DataOnly(group)
  {
    all := sofar;
    for t := 0 to |group|
      invariant all == sofar + DataOnly(group[..t])
    {
      assert group[..t + 1][..t] == group[..t];
      if group[t].kind == D {
        all := all + [group[t]];
      }
    }
    assert group[..|group|] == group;
  }

  lemma NoDataIds(cfg: Config, i: nat, q: nat)
    ensures DataIds(cfg, i, q, q) == []
  {
  }

  lemma MergedGroup(cfg: Config, size: nat, n: nat, i: nat)
    ensures n * size <= (n + 1) * size
    ensures GroupInfo(cfg, size, n, i) == DataIds(cfg, i, n * size, (n + 1) * size) + [LocalId(cfg, i, n)]
  {
    hide DataIds;
    MulMono(n, n + 1, size);
  }

  /** One group of the larger stripe: the data of xi stripes from s on, then a new local parity. */
  method MergeGroup(cfg: Config, stripes: seq<Stripe>, s: nat, xi: nat, n: nat, i: nat, ghost size: nat) returns (group: seq<BlockId>)
    requires s == n * xi && s + xi <= |stripes| && i < cfg.l
    requires forall j :: 0 <= j < |stripes| ==> InfoOk(cfg, size, j, stripes[j].info)
    ensures group == GroupInfo(cfg, size * xi, n, i)
  {
    hide GroupInfo, DataIds, DataOnly;
    group := [];
    NoDataIds(cfg, i, s * size);
    for j := s to s + xi
      invariant s * size <= j * size && group == DataIds(cfg, i, s * size, j * size)
    {
      assert stripes[j].info[i] == GroupInfo(cfg, size, j, i);
      GroupData(cfg, size, j, i);
      DataIdsConcat(cfg, i, s * size, j * size, (j + 1) * size);
      group := CollectData(stripes[j].info[i], group);
    }
    SizesMultiply(n, xi, size);
    group := group + [LocalId(cfg, i, n)];
    MergedGroup(cfg, size * xi, n, i);
  }

  lemma SizesMultiply(n: nat, xi: nat, size: nat)
    ensures n * xi * size == n * (size * xi) && (n * xi + xi) * size == (n + 1) * (size * xi)
  {
    assert n * xi + xi == (n + 1) * xi;
    assert n * xi * size == n * (xi * size) && (n + 1) * xi * size == (n + 1) * (xi * size);
  }

  /** The larger stripe's identifiers. */
  method MergeInfo(cfg: Config, stripes: seq<Stripe>, s: nat, xi: nat, n: nat, ghost size: nat) returns (info: seq<seq<BlockId>>)
    requires s == n * xi && s + xi <= |stripes|
    requires forall j :: 0 <= j < |stripes| ==> InfoOk(cfg, size, j, stripes[j].info)
    ensures InfoOk(cfg, size * xi, n, info)
  {
    hide GroupInfo;
    info := [];
    for i := 0 to cfg.l
      invariant |info| == i && forall t :: 0 <= t < i ==> info[t] == GroupInfo(cfg, size * xi, n, t)
    {
      var group := MergeGroup(cfg, stripes, s, xi, n, i, size);
      info := info + [group];
    }
    var globals: seq<BlockId> := [];
    for e := 0 to cfg.g
      invariant |globals| == e && forall t :: 0 <= t < e ==> globals[t] == BlockId(G, cfg.GlobalId(n, t))
    {
      globals := globals + [BlockId(G, cfg.GlobalId(n, e))];
    }
    assert globals == GlobalInfo(cfg, n);
    info := info + [globals];
  }
}
