/** Blocks and clusters of the stripe-merging simulator. */
module SimBlocks {

  /** D for data, L for local parity, G for global parity. */
  datatype Kind = D | L | G

  /** A block with its identifier (kind and number), and the group and stripe it is tagged with. */
  datatype Block = Block(kind: Kind, num: nat, group: nat, stripe: nat)

  /** What one asks about blocks. */
  datatype Query =
    | DataNum(num: nat)
    | DataOf(stripe: nat)
    | DataIn(lo: nat, hi: nat)
    | AnyData
    | LocalOf(group: nat, stripe: nat)
    | GlobalNum(num: nat)

  predicate Matches(q: Query, b: Block) {
    match q
    case DataNum(num) => b.kind == D && b.num == num
    case DataOf(stripe) => b.kind == D && b.stripe == stripe
    case DataIn(lo, hi) => b.kind == D && lo <= b.stripe < hi
    case AnyData => b.kind == D
    case LocalOf(group, stripe) => b.kind == L && b.group == group && b.stripe == stripe
    case GlobalNum(num) => b.kind == G && b.num == num
  }

  function Count(s: seq<Block>, q: Query): nat {
    if s == [] then 0 else Count(s[..|s| - 1], q) + if Matches(q, s[|s| - 1]) then 1 else 0
  }

  lemma {:induction false} CountConcat(a: seq<Block>, b: seq<Block>, q: Query)
    ensures Count(a + b, q) == Count(a, q) + Count(b, q)
  {
    hide Matches;
    if b == [] {
      assert a + b == a;
    } else {
      assert (a + b)[..|a + b| - 1] == a + b[..|b| - 1];
      CountConcat(a, b[..|b| - 1], q);
    }
  }

  lemma CountPush(s: seq<Block>, b: Block, q: Query)
    ensures Count(s + [b], q) == Count(s, q) + if Matches(q, b) then 1 else 0
  {
    assert (s + [b])[..|s|] == s;
  }

  /** Taking a block out. */
  function Dropped(s: seq<Block>, i: nat): seq<Block>
    requires i < |s|
  {
    s[..i] + s[i + 1..]
  }

  lemma CountDropped(s: seq<Block>, i: nat, q: Query)
    requires i < |s|
    ensures Count(Dropped(s, i), q) + (if Matches(q, s[i]) then 1 else 0) == Count(s, q)
  {
    hide Count, Matches;
    assert s == s[..i] + [s[i]] + s[i + 1..];
    CountConcat(s[..i] + [s[i]], s[i + 1..], q);
    CountPush(s[..i], s[i], q);
    CountConcat(s[..i], s[i + 1..], q);
  }

  lemma {:induction false} CountZero(s: seq<Block>, q: Query)
    requires forall b :: b in s ==> !Matches(q, b)
    ensures Count(s, q) == 0
  {
    hide Matches;
    if s != [] {
      assert s[|s| - 1] in s;
      CountZero(s[..|s| - 1], q);
    }
  }

  lemma {:induction false} CountPositive(s: seq<Block>, q: Query) returns (b: Block)
    requires Count(s, q) > 0
    ensures b in s && Matches(q, b)
  {
    hide Matches;
    if Matches(q, s[|s| - 1]) {
      b := s[|s| - 1];
    } else {
      b := CountPositive(s[..|s| - 1], q);
    }
  }

  lemma {:induction false} CountAtLeast(s: seq<Block>, b: Block, q: Query)
    requires b in s && Matches(q, b)
    ensures Count(s, q) > 0
  {
    hide Matches;
    var n := |s| - 1;
    if s[n] != b {
      assert s == s[..n] + [s[n]];
      CountAtLeast(s[..n], b, q);
    }
  }

  lemma {:induction false} CountSame(a: seq<Block>, b: seq<Block>, p: Query, q: Query)
    requires |a| == |b| && forall i :: 0 <= i < |a| ==> (Matches(p, a[i]) <==> Matches(q, b[i]))
    ensures Count(a, p) == Count(b, q)
    decreases |a|
  {
    hide Matches;
    if a != [] {
      CountSame(a[..|a| - 1], b[..|b| - 1], p, q);
    }
  }

  // ----- taking all parities of one kind and stripe out

  predicate Removable(b: Block, stripe: nat, t: Kind) {
    b.stripe == stripe && b.kind == t
  }

  function Without(s: seq<Block>, stripe: nat, t: Kind): seq<Block> {
    if s == [] then []
    else Without(s[..|s| - 1], stripe, t) + if Removable(s[|s| - 1], stripe, t) then [] else [s[|s| - 1]]
  }

  lemma {:induction false} WithoutMembers(s: seq<Block>, stripe: nat, t: Kind)
    ensures forall b :: b in Without(s, stripe, t) <==> b in s && !Removable(b, stripe, t)
  {
    hide Removable;
    if s != [] {
      var n := |s| - 1;
      WithoutMembers(s[..n], stripe, t);
      assert forall b :: b in s <==> b in s[..n] || b == s[n];
    }
  }

  lemma {:induction false} CountWithout(s: seq<Block>, stripe: nat, t: Kind, q: Query)
    requires forall b :: b in s && Removable(b, stripe, t) ==> !Matches(q, b)
    ensures Count(Without(s, stripe, t), q) == Count(s, q)
  {
    hide Removable, Matches;
    if s != [] {
      var n := |s| - 1;
      assert s[n] in s;
      CountWithout(s[..n], stripe, t, q);
      if !Removable(s[n], stripe, t) {
        CountPush(Without(s[..n], stripe, t), s[n], q);
      } else {
        assert Without(s[..n], stripe, t) + [] == Without(s[..n], stripe, t);
      }
    }
  }

  /** The groups of what is taken out. */
  function RemovedGroups(s: seq<Block>, stripe: nat, t: Kind): set<nat> {
    if s == [] then {}
    else
      RemovedGroups(s[..|s| - 1], stripe, t) + if Removable(s[|s| - 1], stripe, t) then {s[|s| - 1].group} else {}
  }

  lemma {:induction false} RemovedGroupsMembers(s: seq<Block>, stripe: nat, t: Kind, g: nat)
    ensures g in RemovedGroups(s, stripe, t) <==> exists b :: b in s && Removable(b, stripe, t) && b.group == g
  {
    hide Removable;
    if s != [] {
      var n := |s| - 1;
      RemovedGroupsMembers(s[..n], stripe, t, g);
      assert forall b :: b in s <==> b in s[..n] || b == s[n];
    }
  }

  lemma DropMiddle(kept: seq<Block>, rest: seq<Block>)
    requires rest != []
    ensures (kept + rest)[|kept|] == rest[0]
    ensures Dropped(kept + rest, |kept|) == kept + rest[1..]
    ensures kept + [rest[0]] + rest[1..] == kept + rest
  {
  }

  lemma NothingRemoved(s: seq<Block>, stripe: nat, t: Kind)
    ensures Without(s[..0], stripe, t) == [] && RemovedGroups(s[..0], stripe, t) == {}
  {
  }

  lemma RemoveStep(s: seq<Block>, done: nat, stripe: nat, t: Kind)
    requires done < |s|
    ensures Without(s[..done + 1], stripe, t)
         == if Removable(s[done], stripe, t) then Without(s[..done], stripe, t) else Without(s[..done], stripe, t) + [s[done]]
    ensures RemovedGroups(s[..done + 1], stripe, t)
         == if Removable(s[done], stripe, t) then RemovedGroups(s[..done], stripe, t) + {s[done].group}
            else RemovedGroups(s[..done], stripe, t)
    ensures s[done..][0] == s[done] && s[done..][1..] == s[done + 1..]
  {
    assert s[..done + 1][..done] == s[..done];
  }

  // ----- merging tags

  /** Tags lo to hi - 1 become n. */
  function Merged(b: Block, lo: nat, hi: nat, n: nat): Block {
    if lo <= b.stripe < hi then b.(stripe := n) else b
  }

  function MergedAll(s: seq<Block>, lo: nat, hi: nat, n: nat): (r: seq<Block>)
    ensures |r| == |s| && forall i :: 0 <= i < |s| ==> r[i] == Merged(s[i], lo, hi, n)
  {
    seq(|s|, i requires 0 <= i < |s| => Merged(s[i], lo, hi, n))
  }

  lemma {:induction false} CountSplit(s: seq<Block>, lo: nat, mid: nat)
    requires lo <= mid
    ensures Count(s, DataIn(lo, mid + 1)) == Count(s, DataIn(lo, mid)) + Count(s, DataOf(mid))
  {
    if s != [] {
      CountSplit(s[..|s| - 1], lo, mid);
    }
  }

  /** If every tag from lo to hi - 1 has d data blocks, they have (hi - lo) * d together. */
  lemma {:induction false} CountRange(s: seq<Block>, lo: nat, hi: nat, d: nat)
    requires lo <= hi && forall t :: lo <= t < hi ==> Count(s, DataOf(t)) == d
    ensures Count(s, DataIn(lo, hi)) == (hi - lo) * d
    decreases hi
  {
    hide Count;
    if lo == hi {
      CountZero(s, DataIn(lo, hi));
    } else {
      CountRange(s, lo, hi - 1, d);
      CountSplit(s, lo, hi - 1);
      assert (hi - 1 - lo) * d + d == (hi - lo) * d;
    }
  }

  // ----- clusters

  /** The contents of a cluster. */
  datatype ClusterState = ClusterState(blocks: seq<Block>, kind: Kind)

  const EMPTY_CLUSTER := ClusterState([], D)

  /** The kind of a cluster says which parities it has: L over G over D. */
  function Added(c: ClusterState, b: Block): ClusterState {
    ClusterState(c.blocks + [b], if b.kind == L then L else if c.kind == D && b.kind == G then G else c.kind)
  }

  class Cluster {
    var blocks: seq<Block>
    var kind: Kind
    var numOfBlocks: nat
    var numOfDataBlocks: nat

    ghost predicate Valid()
      reads this
    {
      numOfBlocks == |blocks| && numOfDataBlocks == Count(blocks, AnyData)
    }

    function State(): ClusterState
      reads this
    {
      ClusterState(blocks, kind)
    }

    constructor ()
      ensures Valid() && State() == EMPTY_CLUSTER
    {
      blocks, kind, numOfBlocks, numOfDataBlocks := [], D, 0, 0;
    }

    method AddNewBlock(b: Block)
      requires Valid()
      modifies this
      ensures Valid() && State() == Added(old(State()), b)
    {
      CountPush(blocks, b, AnyData);
      blocks := blocks + [b];
      if b.kind == L {
        kind := L;
      } else if kind == D && b.kind == G {
        kind := G;
      } else if b.kind == D {
        numOfDataBlocks := numOfDataBlocks + 1;
      }
      numOfBlocks := numOfBlocks + 1;
    }

    /** Pops the block at an index and keeps the counters in step. */
    method PopBlock(index: nat)
      requires Valid() && index < numOfBlocks
      modifies this
      ensures Valid() && State() == old(ClusterState(Dropped(blocks, index), kind))
    {
      CountDropped(blocks, index, AnyData);
      if blocks[index].kind == D {
        numOfDataBlocks := numOfDataBlocks - 1;
      }
      blocks := Dropped(blocks, index);
      numOfBlocks := numOfBlocks - 1;
    }

    /** Removes every block of one kind and stripe, popping in place, and returns their groups. */
    method RemoveBlock(stripe: nat, t: Kind) returns (groups: set<nat>)
      requires Valid()
      modifies this
      ensures Valid() && State() == ClusterState(Without(old(blocks), stripe, t), old(kind))
      ensures groups == RemovedGroups(old(blocks), stripe, t)
    {
      hide Count, Without, RemovedGroups, Dropped;
      ghost var all := blocks;
      ghost var done, kept, rest := 0, [], blocks;
      groups := {};
      var i := 0;
      NothingRemoved(all, stripe, t);
      while i < numOfBlocks
        invariant Valid() && kind == old(kind) && done <= |all| && rest == all[done..]
        invariant i == |kept| && blocks == kept + rest
        invariant kept == Without(all[..done], stripe, t) && groups == RemovedGroups(all[..done], stripe, t)
        decreases |rest|
      {
        RemoveStep(all, done, stripe, t);
        DropMiddle(kept, rest);
        var block := blocks[i];
        if block.stripe == stripe && block.kind == t {
          groups := groups + {block.group};
          PopBlock(i);
        } else {
          kept := kept + [block];
          i := i + 1;
        }
        rest, done := rest[1..], done + 1;
      }
      assert all[..done] == all && rest == [];
    }

    /** Renames the tags from..upTo - 1, one after the other, to n. */
    method MergeToLargerStripe(from: nat, upTo: nat, n: nat)
      requires Valid() && from <= upTo && (n <= from || upTo <= n)
      modifies this
      ensures Valid() && State() == ClusterState(MergedAll(old(blocks), from, upTo, n), old(kind))
    {
      hide Count;
      assert MergedAll(blocks, from, from, n) == blocks;
      for old_id := from to upTo
        invariant Valid() && kind == old(kind) && blocks == MergedAll(old(blocks), from, old_id, n)
      {
        MergeTag(old_id, n);
        assert blocks == MergedAll(old(blocks), from, old_id + 1, n);
      }
    }

    method MergeTag(from: nat, n: nat)
      requires Valid()
      modifies this
      ensures Valid() && kind == old(kind) && blocks == MergedAll(old(blocks), from, from + 1, n)
    {
      hide Count;
      for j := 0 to numOfBlocks
        invariant numOfBlocks == |blocks| == |old(blocks)| && kind == old(kind) && numOfDataBlocks == old(numOfDataBlocks)
        invariant forall i :: 0 <= i < |blocks| ==>
          blocks[i] == if i < j then Merged(old(blocks[i]), from, from + 1, n) else old(blocks[i])
      {
        if blocks[j].stripe == from {
          blocks := blocks[j := blocks[j].(stripe := n)];
        }
      }
      CountSame(old(blocks), blocks, AnyData, AnyData);
    }
  }
}
