/** The effect of the steps of one merge on a single cluster: new parities for old ones, and data moved out. */
module StageSteps {
  import opened Arithmetic
  import opened SimBlocks
  import opened StageInvariant

  function KindOf(q: Query): Kind {
    match q
    case LocalOf(_, _) => L
    case GlobalNum(_) => G
    case _ => D
  }

  /** s and r differ in blocks of kind k only. */
  ghost predicate SameBut(s: seq<Block>, r: seq<Block>, k: Kind) {
    && (forall b: Block :: b.kind != k ==> (b in s <==> b in r))
    && forall q :: KindOf(q) != k ==> Count(s, q) == Count(r, q)
  }

  lemma ReplaceSame(s: seq<Block>, stripe: nat, k: Kind, added: seq<Block>)
    requires forall b :: b in added ==> b.kind == k
    ensures SameBut(s, Without(s, stripe, k) + added, k)
  {
    hide Count;
    WithoutMembers(s, stripe, k);
    forall q | KindOf(q) != k ensures Count(s, q) == Count(Without(s, stripe, k) + added, q) {
      CountConcat(Without(s, stripe, k), added, q);
      CountWithout(s, stripe, k, q);
      CountZero(added, q);
    }
  }

  // ----- global parities

  function NewGlobals(cfg: Config, n: nat, count: nat): (s: seq<Block>)
    ensures |s| == count && forall e :: 0 <= e < count ==> s[e] == Block(G, cfg.GlobalId(n, e), cfg.l, n)
  {
    seq(count, e requires 0 <= e < count => Block(G, cfg.GlobalId(n, e), cfg.l, n))
  }

  lemma NoBlocks(q: Query)
    ensures Count([], q) == 0
  {
  }

  lemma GlobalIdNext(cfg: Config, n: nat, e: nat)
    ensures cfg.GlobalId(n, e) == cfg.GlobalId(n, 0) + e
  {
  }

  lemma {:induction false} NewGlobalsCount(cfg: Config, n: nat, count: nat, num: nat)
    ensures Count(NewGlobals(cfg, n, count), GlobalNum(num))
         == if cfg.GlobalId(n, 0) <= num < cfg.GlobalId(n, 0) + count then 1 else 0
    decreases count
  {
    hide Count, Config.GlobalId;
    var s := NewGlobals(cfg, n, count);
    if count == 0 {
      NoBlocks(GlobalNum(num));
    } else {
      GlobalIdNext(cfg, n, count - 1);
      NewGlobalsCount(cfg, n, count - 1, num);
      assert s == NewGlobals(cfg, n, count - 1) + [s[count - 1]];
      CountPush(NewGlobals(cfg, n, count - 1), s[count - 1], GlobalNum(num));
    }
  }

  /** Numbers of different stripes' global parities do not meet. */
  lemma GlobalApart(cfg: Config, st: Stage, n: nat, t: nat, e: nat)
    requires st.Valid() && st.ValidTag(n + 1, t) && e < cfg.g
    ensures t != n ==> !(st.From(n) * cfg.g <= cfg.GlobalId(t, e) < st.From(n + 1) * cfg.g)
    ensures cfg.GlobalId(n, 0) <= cfg.GlobalId(t, e) < cfg.GlobalId(n, 0) + cfg.g <==> t == n
  {
    FromNext(st, n);
    if t < n {
      MulMono(t + 1, n, cfg.g);
      MulMono(n, st.From(n), cfg.g);
    } else if t > n {
      MulMono(n + 1, t, cfg.g);
      MulMono(st.From(n + 1), t, cfg.g);
    }
  }

  lemma NewTagValid(st: Stage, n: nat)
    ensures st.ValidTag(n + 1, n)
  {
  }

  lemma ReplaceGlobals(cfg: Config, st: Stage, n: nat, s: seq<Block>)
    requires cfg.Valid() && st.Valid() && RenamedGlobals(cfg, st, n, cfg.gId, s)
    ensures HomeGlobals(cfg, st, n + 1, cfg.gId, Without(s, n, G) + NewGlobals(cfg, n, cfg.g))
  {
    hide Count, Stage.ValidTag, Stage.From;
    var kept, added := Without(s, n, G), NewGlobals(cfg, n, cfg.g);
    WithoutMembers(s, n, G);
    NewTagValid(st, n);
    forall t: nat, e: nat | st.ValidTag(n + 1, t) && e < cfg.g
      ensures Count(kept + added, GlobalNum(cfg.GlobalId(t, e))) == 1
    {
      var q := GlobalNum(cfg.GlobalId(t, e));
      CountConcat(kept, added, q);
      NewGlobalsCount(cfg, n, cfg.g, cfg.GlobalId(t, e));
      GlobalApart(cfg, st, n, t, e);
      if t == n {
        forall b | b in kept ensures !Matches(q, b) {
          OldGlobal(cfg, st, n, s, b, e);
        }
        CountZero(kept, q);
      } else {
        CountWithout(s, n, G, q);
      }
    }
  }

  /** What is left after the removal does not have a number of the new parities. */
  lemma OldGlobal(cfg: Config, st: Stage, n: nat, s: seq<Block>, b: Block, e: nat)
    requires cfg.Valid() && st.Valid() && RenamedGlobals(cfg, st, n, cfg.gId, s) && e < cfg.g
    requires b in s && !Removable(b, n, G)
    ensures !Matches(GlobalNum(cfg.GlobalId(n, e)), b)
  {
    if b.kind == G {
      if b.stripe < n {
        MulMono(b.stripe + 1, n, cfg.g);
      } else {
        MulMono(n + 1, b.stripe, cfg.g);
      }
    }
  }

  // ----- local parities

  function NewLocals(cfg: Config, n: nat, groups: seq<nat>): (s: seq<Block>)
    ensures |s| == |groups| && forall e :: 0 <= e < |s| ==> s[e] == Block(L, groups[e] + n * cfg.l, groups[e], n)
  {
    seq(|groups|, e requires 0 <= e < |groups| => Block(L, groups[e] + n * cfg.l, groups[e], n))
  }

  ghost predicate DistinctGroups(groups: seq<nat>) {
    forall i, j :: 0 <= i < j < |groups| ==> groups[i] != groups[j]
  }

  lemma LastLocal(cfg: Config, n: nat, groups: seq<nat>)
    requires groups != []
    ensures var m := |groups| - 1;
      NewLocals(cfg, n, groups) == NewLocals(cfg, n, groups[..m]) + [Block(L, groups[m] + n * cfg.l, groups[m], n)]
  {
  }

  lemma LastOf(groups: seq<nat>, i: nat)
    requires groups != [] && DistinctGroups(groups)
    ensures var m := |groups| - 1; (i in groups <==> i in groups[..m] || i == groups[m]) && groups[m] !in groups[..m]
  {
  }

  lemma {:induction false} NewLocalsCount(cfg: Config, n: nat, groups: seq<nat>, i: nat, t: nat)
    requires DistinctGroups(groups)
    ensures Count(NewLocals(cfg, n, groups), LocalOf(i, t)) == if t == n && i in groups then 1 else 0
  {
    hide Count, NewLocals;
    if groups == [] {
      CountZero(NewLocals(cfg, n, groups), LocalOf(i, t));
    } else {
      var m := |groups| - 1;
      NewLocalsCount(cfg, n, groups[..m], i, t);
      LastLocal(cfg, n, groups);
      CountPush(NewLocals(cfg, n, groups[..m]), Block(L, groups[m] + n * cfg.l, groups[m], n), LocalOf(i, t));
      LastOf(groups, i);
    }
  }

  /** The groups of the removed local parities are exactly those of the cluster. */
  lemma GroupsOfHome(cfg: Config, st: Stage, n: nat, c: nat, s: seq<Block>, i: nat)
    requires RenamedLocals(cfg, st, n, c, s)
    ensures i in RemovedGroups(s, n, L) <==> cfg.Lo(c) <= i < cfg.Hi(c)
  {
    hide Count;
    RemovedGroupsMembers(s, n, L, i);
    if cfg.Lo(c) <= i < cfg.Hi(c) {
      var b := CountPositive(s, LocalOf(i, n));
    }
  }

  lemma ReplaceLocals(cfg: Config, st: Stage, n: nat, c: nat, s: seq<Block>, groups: seq<nat>)
    requires cfg.Valid() && st.Valid() && RenamedLocals(cfg, st, n, c, s)
    requires DistinctGroups(groups) && forall i :: i in groups <==> i in RemovedGroups(s, n, L)
    ensures HomeLocals(cfg, st, n + 1, c, Without(s, n, L) + NewLocals(cfg, n, groups))
  {
    hide Count, Stage.ValidTag, Stage.From;
    var kept, added := Without(s, n, L), NewLocals(cfg, n, groups);
    WithoutMembers(s, n, L);
    NewTagValid(st, n);
    forall b: Block | b in kept + added && b.kind == L
      ensures cfg.Lo(c) <= b.group < cfg.Hi(c) && st.ValidTag(n + 1, b.stripe) && LocalTag(cfg, b)
    {
      if b in added {
        assert b.group in groups;
        GroupsOfHome(cfg, st, n, c, s, b.group);
      }
    }
    forall i: nat, t: nat | cfg.Lo(c) <= i < cfg.Hi(c) && st.ValidTag(n + 1, t) ensures Count(kept + added, LocalOf(i, t)) == 1 {
      CountConcat(kept, added, LocalOf(i, t));
      NewLocalsCount(cfg, n, groups, i, t);
      GroupsOfHome(cfg, st, n, c, s, i);
      if t == n {
        CountZero(kept, LocalOf(i, t));
      } else {
        CountWithout(s, n, L, LocalOf(i, t));
      }
    }
  }

  // ----- data moved out

  /** r is s without `moved` of its data blocks tagged n. */
  ghost predicate MovedOut(s: seq<Block>, r: seq<Block>, n: nat, moved: nat) {
    && (forall b :: b in r ==> b in s)
    && (forall b :: b in s && b.kind != D ==> b in r)
    && (forall t :: Count(r, DataOf(t)) + (if t == n then moved else 0) == Count(s, DataOf(t)))
    && Count(r, AnyData) + moved == Count(s, AnyData)
    && forall q :: KindOf(q) != D ==> Count(r, q) == Count(s, q)
  }

  lemma MoveOne(s: seq<Block>, r: seq<Block>, n: nat, moved: nat, i: nat)
    requires MovedOut(s, r, n, moved) && i < |r| && r[i].kind == D && r[i].stripe == n
    ensures MovedOut(s, Dropped(r, i), n, moved + 1)
  {
    hide Count;
    var r' := Dropped(r, i);
    forall b | b in s && b.kind != D ensures b in r' {
      var j :| 0 <= j < |r| && r[j] == b;
      assert j != i && r'[if j < i then j else j - 1] == b;
    }
    forall t ensures Count(r', DataOf(t)) + (if t == n then moved + 1 else 0) == Count(s, DataOf(t)) {
      CountDropped(r, i, DataOf(t));
    }
    CountDropped(r, i, AnyData);
    forall q | KindOf(q) != D ensures Count(r', q) == Count(s, q) {
      CountDropped(r, i, q);
    }
  }

  /** Once the surplus is out, the cluster's data is as the next point wants it. */
  lemma SurplusOut(cfg: Config, st: Stage, n: nat, c: nat, s: seq<Block>, r: seq<Block>, moved: nat)
    requires st.Valid() && RenamedData(cfg, st, n, c, s) && MovedOut(s, r, n, moved)
    requires c < cfg.gId ==> st.xi * st.d == st.d2 + moved
    ensures HomeData(cfg, st, n + 1, c, r)
  {
    hide Count;
    FromNext(st, n);
    if c < cfg.gId {
      assert st.From(n + 1) * st.d == st.From(n) * st.d + st.xi * st.d;
      assert (n + 1) * st.d2 == n * st.d2 + st.d2;
      forall t | st.ValidTag(n + 1, t) ensures Count(r, DataOf(t)) == st.PerTag(n + 1, t) {
      }
    }
  }

  lemma MovedKeepsParities(cfg: Config, st: Stage, n: nat, c: nat, s: seq<Block>, r: seq<Block>, tag: nat, moved: nat)
    requires MovedOut(s, r, tag, moved) && HomeLocals(cfg, st, n, c, s) && HomeGlobals(cfg, st, n, c, s)
    ensures HomeLocals(cfg, st, n, c, r) && HomeGlobals(cfg, st, n, c, r)
  {
    hide Count, LocalTag, GlobalTag, Stage.ValidTag;
  }

  lemma ReplacedKeeps(cfg: Config, st: Stage, n: nat, c: nat, s: seq<Block>, r: seq<Block>, k: Kind)
    requires cfg.Valid() && st.Valid() && k != D && SameBut(s, r, k)
    ensures RenamedData(cfg, st, n, c, s) ==> RenamedData(cfg, st, n, c, r)
    ensures DataTags(cfg, st, n + 1, s) ==> DataTags(cfg, st, n + 1, r)
    ensures k == G && RenamedLocals(cfg, st, n, c, s) ==> RenamedLocals(cfg, st, n, c, r)
    ensures k == L && HomeGlobals(cfg, st, n + 1, c, s) ==> HomeGlobals(cfg, st, n + 1, c, r)
  {
    hide Count, LocalTag, GlobalTag, Stage.ValidTag, DataTag;
  }
}
