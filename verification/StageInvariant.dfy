/** What holds of all clusters while x stripes of a stage are merged, xi at a time, into larger ones. After n of the
    merges, the tags 0 to n - 1 are larger stripes and the tags from n * xi on are stripes not yet merged; reusing
    the low numbers never confuses two stripes. */
module StageInvariant {
  import opened Arithmetic
  import opened SimBlocks

  /** l groups of r data blocks each in x0 original stripes, g global parities a stripe. gId is the cluster of the
      global parities; with tails, the l clusters before it hold the groups' tails and local parities. */
  datatype Config = Config(l: nat, g: nat, r: nat, x0: nat, tails: bool, gId: nat) {
    ghost predicate Valid() {
      l > 0 && g > 0 && r > 0 && (tails ==> gId >= l)
    }

    function DataCount(): nat { x0 * (l * r) }

    /** The original stripe of a data block. */
    function Origin(num: nat): nat
      requires l * r > 0
    {
      num / (l * r)
    }

    function DataGroup(num: nat): nat
      requires l * r > 0 && r > 0
    {
      num % (l * r) / r
    }

    function Base(): int { if tails then gId - l else gId }

    predicate Special(c: nat) { Base() <= c <= gId }

    /** The groups whose local parities cluster c holds are Lo(c) to Hi(c) - 1. */
    function Lo(c: nat): int { if tails then c - Base() else 0 }

    function Hi(c: nat): int { if tails && c < gId then c - Base() + 1 else l }

    function GlobalId(t: nat, e: nat): nat { t * g + e }
  }

  /** x stripes, each of `size` original ones, are merged xi at a time; a tail cluster has d data blocks of each stripe
      and keeps d2 of each larger one. */
  datatype Stage = Stage(size: nat, x: nat, xi: nat, d: nat, d2: nat) {
    ghost predicate Valid() {
      size > 0 && xi > 1
    }

    /** Where the stripes begin that merge n takes. */
    function From(n: nat): nat { n * xi }

    predicate ValidTag(n: nat, t: nat) { t < n || From(n) <= t < x }

    /** The current tag of an original stripe. */
    function Tag(n: nat, origin: nat): nat
      requires size > 0 && xi > 0
    {
      var q := origin / size;
      if q < From(n) then q / xi else q
    }

    function PerTag(n: nat, t: nat): nat { if t < n then d2 else d }
  }

  lemma FromNext(st: Stage, n: nat)
    requires st.Valid()
    ensures n <= st.From(n) && st.From(n + 1) == st.From(n) + st.xi
  {
    MulMono(1, st.xi, n);
  }

  // ----- what holds of one cluster

  ghost predicate DataTags(cfg: Config, st: Stage, n: nat, s: seq<Block>)
    requires cfg.Valid() && st.Valid()
  {
    forall b :: b in s && b.kind == D ==> DataTag(cfg, st, n, b)
  }

  ghost predicate DataTag(cfg: Config, st: Stage, n: nat, b: Block)
    requires cfg.Valid() && st.Valid()
  {
    && cfg.l * cfg.r > 0
    && b.num < cfg.DataCount() && b.group == cfg.DataGroup(b.num) && b.stripe == st.Tag(n, cfg.Origin(b.num))
  }

  /** A local parity has the number of its group and stripe. */
  predicate LocalTag(cfg: Config, b: Block) {
    b.num == b.group + b.stripe * cfg.l
  }

  predicate GlobalTag(cfg: Config, b: Block) {
    b.group == cfg.l && b.stripe * cfg.g <= b.num < b.stripe * cfg.g + cfg.g
  }

  /** The parts of a special cluster's contents, for the tags of point n. */
  ghost predicate HomeData(cfg: Config, st: Stage, n: nat, c: nat, s: seq<Block>) {
    && (forall b :: b in s && b.kind == D ==> c < cfg.gId && b.group == cfg.Lo(c))
    && (c < cfg.gId ==> forall t :: st.ValidTag(n, t) ==> Count(s, DataOf(t)) == st.PerTag(n, t))
    && (c < cfg.gId ==> Count(s, AnyData) + st.From(n) * st.d == n * st.d2 + st.x * st.d)
  }

  ghost predicate HomeLocals(cfg: Config, st: Stage, n: nat, c: nat, s: seq<Block>) {
    && (forall b :: b in s && b.kind == L ==> cfg.Lo(c) <= b.group < cfg.Hi(c) && st.ValidTag(n, b.stripe) && LocalTag(cfg, b))
    && forall i: nat, t: nat :: cfg.Lo(c) <= i < cfg.Hi(c) && st.ValidTag(n, t) ==> Count(s, LocalOf(i, t)) == 1
  }

  ghost predicate HomeGlobals(cfg: Config, st: Stage, n: nat, c: nat, s: seq<Block>) {
    && (forall b :: b in s && b.kind == G ==> c == cfg.gId && st.ValidTag(n, b.stripe) && GlobalTag(cfg, b))
    && (c == cfg.gId ==> forall t: nat, e: nat :: st.ValidTag(n, t) && e < cfg.g ==> Count(s, GlobalNum(cfg.GlobalId(t, e))) == 1)
  }

  /** A cluster of relocated or dispersed data: at most g + 1 blocks of one group of one stripe. */
  ghost predicate DataCluster(cfg: Config, c: ClusterState) {
    && c.kind == D && 0 < |c.blocks| <= cfg.g + 1
    && forall b :: b in c.blocks ==> b.kind == D && b.group == c.blocks[0].group && b.stripe == c.blocks[0].stripe
  }

  predicate HomeKind(cfg: Config, c: nat, kind: Kind) {
    kind == if c < cfg.gId || !cfg.tails then L else G
  }

  ghost predicate ClusterReady(cfg: Config, st: Stage, n: nat, c: nat, s: ClusterState)
    requires cfg.Valid() && st.Valid()
  {
    && DataTags(cfg, st, n, s.blocks)
    && if cfg.Special(c) then
         && HomeKind(cfg, c, s.kind) && HomeData(cfg, st, n, c, s.blocks)
         && HomeLocals(cfg, st, n, c, s.blocks) && HomeGlobals(cfg, st, n, c, s.blocks)
       else DataCluster(cfg, s)
  }

  // ----- renaming the tags of merge n

  lemma TagMerges(st: Stage, n: nat, origin: nat)
    requires st.Valid()
    ensures st.Tag(n + 1, origin)
         == if st.From(n) <= st.Tag(n, origin) < st.From(n + 1) then n else st.Tag(n, origin)
  {
    FromNext(st, n);
    var q := origin / st.size;
    if q < st.From(n) {
      DivBelow(q, st.xi, n);
    } else if q < st.From(n + 1) {
      DivModUnique(q, st.xi, n, q - st.From(n));
    }
  }

  /** The blocks after renaming. */
  function Renamed(st: Stage, n: nat, s: seq<Block>): (r: seq<Block>)
    ensures |r| == |s| && forall i :: 0 <= i < |s| ==> r[i] == Merged(s[i], st.From(n), st.From(n + 1), n)
  {
    MergedAll(s, st.From(n), st.From(n + 1), n)
  }

  /** Every block after renaming comes from one before. */
  lemma RenamedFrom(st: Stage, n: nat, s: seq<Block>, b: Block) returns (a: Block)
    requires b in Renamed(st, n, s)
    ensures a in s && b == Merged(a, st.From(n), st.From(n + 1), n)
  {
    var i :| 0 <= i < |s| && Renamed(st, n, s)[i] == b;
    a := s[i];
  }

  lemma RenameData(cfg: Config, st: Stage, n: nat, s: seq<Block>)
    requires cfg.Valid() && st.Valid() && DataTags(cfg, st, n, s)
    ensures DataTags(cfg, st, n + 1, Renamed(st, n, s))
  {
    forall b | b in Renamed(st, n, s) && b.kind == D ensures DataTag(cfg, st, n + 1, b) {
      var a := RenamedFrom(st, n, s, b);
      TagMerges(st, n, cfg.Origin(a.num));
    }
  }

  /** Merged stripes keep a tag of their own: at point n + 1 the valid tags are n and the old ones that are not merged. */
  lemma ValidTagNext(st: Stage, n: nat, t: nat)
    requires st.Valid() && st.From(n + 1) <= st.x
    ensures st.ValidTag(n + 1, t) <==> t == n || (st.ValidTag(n, t) && !(st.From(n) <= t < st.From(n + 1)))
    ensures st.From(n) <= n ==> n == 0 && st.From(n) == 0
  {
    FromNext(st, n);
    MulMono(2, st.xi, n);
  }

  ghost predicate RenamedData(cfg: Config, st: Stage, n: nat, c: nat, s: seq<Block>) {
    && (forall b :: b in s && b.kind == D ==> c < cfg.gId && b.group == cfg.Lo(c))
    && (c < cfg.gId ==> forall t :: st.ValidTag(n + 1, t) ==>
          Count(s, DataOf(t)) == if t == n then st.xi * st.d else st.PerTag(n, t))
    && (c < cfg.gId ==> Count(s, AnyData) + st.From(n) * st.d == n * st.d2 + st.x * st.d)
  }

  ghost predicate RenamedLocals(cfg: Config, st: Stage, n: nat, c: nat, s: seq<Block>) {
    && (forall b :: b in s && b.kind == L ==>
          && cfg.Lo(c) <= b.group < cfg.Hi(c)
          && (b.stripe == n || (st.ValidTag(n + 1, b.stripe) && LocalTag(cfg, b))))
    && (forall i: nat, t: nat :: cfg.Lo(c) <= i < cfg.Hi(c) && st.ValidTag(n + 1, t) && t != n ==> Count(s, LocalOf(i, t)) == 1)
    && forall i: nat :: cfg.Lo(c) <= i < cfg.Hi(c) ==> Count(s, LocalOf(i, n)) >= 1
  }

  ghost predicate RenamedGlobals(cfg: Config, st: Stage, n: nat, c: nat, s: seq<Block>) {
    && (forall b :: b in s && b.kind == G ==>
          && c == cfg.gId
          && if b.stripe == n then st.From(n) * cfg.g <= b.num < st.From(n + 1) * cfg.g
             else st.ValidTag(n + 1, b.stripe) && GlobalTag(cfg, b))
    && (c == cfg.gId ==>
          forall t: nat, e: nat :: st.ValidTag(n + 1, t) && t != n && e < cfg.g ==> Count(s, GlobalNum(cfg.GlobalId(t, e))) == 1)
  }

  /** No block is tagged n before merge n, unless it is one of those to be merged. */
  lemma TagNotTaken(st: Stage, n: nat, origin: nat)
    requires st.Valid()
    ensures st.Tag(n, origin) == n ==> st.From(n) <= n < st.From(n + 1)
  {
    FromNext(st, n);
    var q := origin / st.size;
    if q < st.From(n) {
      DivBelow(q, st.xi, n);
    }
  }

  lemma RenameHomeData(cfg: Config, st: Stage, n: nat, c: nat, s: seq<Block>)
    requires cfg.Valid() && st.Valid() && st.From(n + 1) <= st.x && DataTags(cfg, st, n, s) && HomeData(cfg, st, n, c, s)
    ensures RenamedData(cfg, st, n, c, Renamed(st, n, s))
  {
    hide Count;
    var r := Renamed(st, n, s);
    FromNext(st, n);
    forall b | b in r && b.kind == D ensures c < cfg.gId && b.group == cfg.Lo(c) {
      var a := RenamedFrom(st, n, s, b);
    }
    if c < cfg.gId {
      CountSame(s, r, AnyData, AnyData);
      forall t | st.ValidTag(n + 1, t)
        ensures Count(r, DataOf(t)) == if t == n then st.xi * st.d else st.PerTag(n, t)
      {
        ValidTagNext(st, n, t);
        if t == n {
          MergedDataCount(cfg, st, n, s);
        } else {
          CountSame(s, r, DataOf(t), DataOf(t));
        }
      }
    }
  }

  lemma MergedDataCount(cfg: Config, st: Stage, n: nat, s: seq<Block>)
    requires cfg.Valid() && st.Valid() && st.From(n + 1) <= st.x && DataTags(cfg, st, n, s)
    requires forall t :: st.ValidTag(n, t) ==> Count(s, DataOf(t)) == st.PerTag(n, t)
    ensures Count(Renamed(st, n, s), DataOf(n)) == st.xi * st.d
  {
    hide Count;
    FromNext(st, n);
    var lo, hi := st.From(n), st.From(n + 1);
    forall i | 0 <= i < |s| ensures Matches(DataIn(lo, hi), s[i]) <==> Matches(DataOf(n), Renamed(st, n, s)[i]) {
      assert s[i] in s;
      if s[i].kind == D {
        assert DataTag(cfg, st, n, s[i]);
        TagNotTaken(st, n, cfg.Origin(s[i].num));
      }
    }
    CountSame(s, Renamed(st, n, s), DataIn(lo, hi), DataOf(n));
    CountRange(s, lo, hi, st.d);
  }

  lemma RenameLocals(cfg: Config, st: Stage, n: nat, c: nat, s: seq<Block>)
    requires cfg.Valid() && st.Valid() && st.From(n + 1) <= st.x && HomeLocals(cfg, st, n, c, s)
    ensures RenamedLocals(cfg, st, n, c, Renamed(st, n, s))
  {
    hide Count, LocalTag;
    var r := Renamed(st, n, s);
    FromNext(st, n);
    forall b | b in r && b.kind == L
      ensures cfg.Lo(c) <= b.group < cfg.Hi(c)
      ensures b.stripe == n || (st.ValidTag(n + 1, b.stripe) && LocalTag(cfg, b))
    {
      var a := RenamedFrom(st, n, s, b);
      ValidTagNext(st, n, b.stripe);
    }
    forall i: nat, t: nat | cfg.Lo(c) <= i < cfg.Hi(c) && st.ValidTag(n + 1, t) && t != n ensures Count(r, LocalOf(i, t)) == 1 {
      ValidTagNext(st, n, t);
      CountSame(s, r, LocalOf(i, t), LocalOf(i, t));
    }
    forall i: nat | cfg.Lo(c) <= i < cfg.Hi(c) ensures Count(r, LocalOf(i, n)) >= 1 {
      assert st.ValidTag(n, st.From(n));
      var b := CountPositive(s, LocalOf(i, st.From(n)));
      var j :| 0 <= j < |s| && s[j] == b;
      CountAtLeast(r, r[j], LocalOf(i, n));
    }
  }

  lemma GlobalRange(cfg: Config, st: Stage, n: nat, b: Block)
    requires st.Valid() && GlobalTag(cfg, b) && st.From(n) <= b.stripe < st.From(n + 1)
    ensures st.From(n) * cfg.g <= b.num < st.From(n + 1) * cfg.g
  {
    MulMono(st.From(n), b.stripe, cfg.g);
    MulMono(b.stripe + 1, st.From(n + 1), cfg.g);
  }

  lemma RenameGlobals(cfg: Config, st: Stage, n: nat, c: nat, s: seq<Block>)
    requires cfg.Valid() && st.Valid() && st.From(n + 1) <= st.x && HomeGlobals(cfg, st, n, c, s)
    ensures RenamedGlobals(cfg, st, n, c, Renamed(st, n, s))
  {
    hide Count, GlobalTag;
    var r := Renamed(st, n, s);
    FromNext(st, n);
    forall b | b in r && b.kind == G
      ensures c == cfg.gId
      ensures b.stripe == n ==> st.From(n) * cfg.g <= b.num < st.From(n + 1) * cfg.g
      ensures b.stripe != n ==> st.ValidTag(n + 1, b.stripe) && GlobalTag(cfg, b)
    {
      var a := RenamedFrom(st, n, s, b);
      ValidTagNext(st, n, b.stripe);
      if b.stripe == n {
        ValidTagNext(st, n, a.stripe);
        GlobalRange(cfg, st, n, a);
      } else {
        assert b == a;
      }
    }
    if c == cfg.gId {
      forall t: nat, e: nat | st.ValidTag(n + 1, t) && t != n && e < cfg.g
        ensures Count(r, GlobalNum(cfg.GlobalId(t, e))) == 1
      {
        ValidTagNext(st, n, t);
        CountSame(s, r, GlobalNum(cfg.GlobalId(t, e)), GlobalNum(cfg.GlobalId(t, e)));
      }
    }
  }
}
