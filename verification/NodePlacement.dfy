/** From placement groups to clusters and nodes, and when a configuration that passes validateConfig has
    enough nodes. Where it has not, the source keeps drawing nodes forever. */
module NodePlacement {
  import opened Arithmetic
  import opened DecodePlanner
  import opened Placement

  // ----- members of a group

  /** The positions below n that carry c, ascending: what add_to_map collects under c. */
  function Members(groups: seq<int>, c: int, n: nat): seq<nat>
    requires n <= |groups|
    decreases n
  {
    if n == 0 then []
    else if groups[n - 1] == c then Members(groups, c, n - 1) + [n - 1]
    else Members(groups, c, n - 1)
  }

  lemma {:induction false} MembersSound(groups: seq<int>, c: int, n: nat)
    requires n <= |groups|
    ensures forall i: nat :: i in Members(groups, c, n) ==> i < n && groups[i] == c
    ensures forall i: nat :: i < n && groups[i] == c ==> i in Members(groups, c, n)
    ensures Ascending(Members(groups, c, n))
    decreases n
  {
    if n == 0 {
    } else {
      MembersSound(groups, c, n - 1);
      var s := Members(groups, c, n - 1);
      assert forall j :: 0 <= j < |s| ==> s[j] in s;
    }
  }

  // ----- placing the blocks

  datatype Placed = Placed(clusters: seq<nat>, nodes: seq<nat>, groupToBlocks: map<int, seq<nat>>)

  /** The remainder as the source's language takes it: with the sign of the dividend. */
  function Remainder(a: int, m: int): (x: int)
    requires m > 0
    ensures -m < x < m && (a >= 0 ==> x == a % m)
    ensures -m < a < m ==> x == a
  {
    if -m < a < 0 then DivModUnique(-a, m, 0, -a); -(-a % m)
    else if a < 0 then -(-a % m)
    else if a < m then DivModUnique(a, m, 0, a); a % m
    else a % m
  }

  /** The cluster of a group: round robin over the clusters, starting with the stripe's own. The remainder has the sign of
      the dividend, so group -1 gets a negative number, for which there is no cluster, if the stripe's own cluster is 0. */
  function ClusterOf(stripeId: nat, group: int, clusterNum: nat): (x: int)
    requires clusterNum > 0
    ensures x < clusterNum
    ensures group >= 0 ==> x == (stripeId + group) % clusterNum
    ensures group == -1 && clusterNum > 1 ==> x == stripeId % clusterNum - 1
  {
    ModAdd(stripeId, if group >= 0 then group else 0, clusterNum);
    Remainder(stripeId % clusterNum + group, clusterNum)
  }

  /** The cluster of every block. */
  function ClusterTable(groups: seq<int>, stripeId: nat, clusterNum: nat): (cs: seq<int>)
    requires clusterNum > 0
    ensures |cs| == |groups| && forall i :: 0 <= i < |groups| ==> cs[i] == ClusterOf(stripeId, groups[i], clusterNum)
  {
    seq(|groups|, i requires 0 <= i < |groups| => ClusterOf(stripeId, groups[i], clusterNum))
  }

  ghost predicate DistinctNodes(nodesOf: seq<set<nat>>) {
    forall x, y :: 0 <= x < y < |nodesOf| ==> nodesOf[x] !! nodesOf[y]
  }

  /** A cluster for every block, and enough nodes in every cluster for the stripe's blocks there. */
  ghost predicate Fits(groups: seq<int>, stripeId: nat, nodesOf: seq<set<nat>>)
    requires |nodesOf| > 0
  {
    && (forall i :: 0 <= i < |groups| ==> ClusterOf(stripeId, groups[i], |nodesOf|) >= 0)
    && forall x :: 0 <= x < |nodesOf| ==>
         |Members(ClusterTable(groups, stripeId, |nodesOf|), x, |groups|)| <= |nodesOf[x]|
  }

  ghost predicate PlacedUpTo(p: Placed, groups: seq<int>, stripeId: nat, nodesOf: seq<set<nat>>, n: nat)
    requires |nodesOf| > 0 && n <= |groups|
  {
    && |p.clusters| == |p.nodes| == n
    && (forall i :: 0 <= i < n ==> p.clusters[i] == ClusterOf(stripeId, groups[i], |nodesOf|) < |nodesOf|)
    && (forall i :: 0 <= i < n ==> p.nodes[i] in nodesOf[p.clusters[i]])
    && (forall i, j :: 0 <= i < j < n ==> p.nodes[i] != p.nodes[j])
    && (forall c :: c in p.groupToBlocks <==> c in groups[..n])
    && (forall c :: c in p.groupToBlocks ==> p.groupToBlocks[c] == Members(groups, c, n))
  }

  /** The nodes of cluster x that already hold a block of the stripe. */
  ghost predicate UsedNodes(used: seq<set<nat>>, p: Placed, groups: seq<int>, stripeId: nat, nodesOf: seq<set<nat>>)
    requires |nodesOf| > 0 && |p.nodes| == |p.clusters| <= |groups|
  {
    && |used| == |nodesOf|
    && forall x :: 0 <= x < |nodesOf| ==>
         && used[x] <= nodesOf[x]
         && |used[x]| == |Members(ClusterTable(groups, stripeId, |nodesOf|), x, |p.nodes|)|
         && forall i :: 0 <= i < |p.nodes| && p.clusters[i] == x ==> p.nodes[i] in used[x]
  }

  lemma NothingPlaced(groups: seq<int>, stripeId: nat, nodesOf: seq<set<nat>>, used: seq<set<nat>>)
    requires |nodesOf| > 0 && |used| == |nodesOf| && forall x :: 0 <= x < |used| ==> used[x] == {}
    ensures PlacedUpTo(Placed([], [], map[]), groups, stripeId, nodesOf, 0)
    ensures UsedNodes(used, Placed([], [], map[]), groups, stripeId, nodesOf)
  {
  }

  method PlaceBlocks(groups: seq<int>, stripeId: nat, nodesOf: seq<set<nat>>) returns (placed: Option<Placed>)
    requires |nodesOf| > 0 && DistinctNodes(nodesOf)
    ensures placed.Some? ==> PlacedUpTo(placed.value, groups, stripeId, nodesOf, |groups|)
    ensures placed.Some? <==> Fits(groups, stripeId, nodesOf)
  {
    hide Members, PlacedUpTo, UsedNodes, Fits, DistinctNodes;
    var p := Placed([], [], map[]);
    var used: seq<set<nat>> := seq(|nodesOf|, x => {});
    NothingPlaced(groups, stripeId, nodesOf, used);
    for i := 0 to |groups|
      invariant |p.nodes| == |p.clusters| == i && |used| == |nodesOf|
      invariant PlacedUpTo(p, groups, stripeId, nodesOf, i)
      invariant UsedNodes(used, p, groups, stripeId, nodesOf)
    {
      var x := ClusterOf(stripeId, groups[i], |nodesOf|);
      if x < 0 {
        NoCluster(groups, stripeId, nodesOf, i);
        return None;
      }
      var free := nodesOf[x] - used[x];
      if free == {} {
        NoRoom(p, used, groups, stripeId, nodesOf, i, x);
        return None;
      }
      var node :| node in free;
      var before := if groups[i] in p.groupToBlocks then p.groupToBlocks[groups[i]] else [];
      var q := Placed(p.clusters + [x], p.nodes + [node], p.groupToBlocks[groups[i] := before + [i]]);
      PlaceNext(p, q, used, groups, stripeId, nodesOf, i, node, x);
      UseNext(p, q, used, groups, stripeId, nodesOf, i, node, x);
      p := q;
      used := used[x := used[x] + {node}];
    }
    placed := Some(p);
    AllPlaced(p, used, groups, stripeId, nodesOf);
  }

  lemma NoCluster(groups: seq<int>, stripeId: nat, nodesOf: seq<set<nat>>, i: nat)
    requires |nodesOf| > 0 && i < |groups| && ClusterOf(stripeId, groups[i], |nodesOf|) < 0
    ensures !Fits(groups, stripeId, nodesOf)
  {
    hide Members, ClusterTable;
  }

  lemma AllPlaced(p: Placed, used: seq<set<nat>>, groups: seq<int>, stripeId: nat, nodesOf: seq<set<nat>>)
    requires |nodesOf| > 0 && PlacedUpTo(p, groups, stripeId, nodesOf, |groups|)
    requires UsedNodes(used, p, groups, stripeId, nodesOf)
    ensures Fits(groups, stripeId, nodesOf)
  {
    hide Members, ClusterTable, ClusterOf;
    forall x | 0 <= x < |nodesOf|
      ensures |Members(ClusterTable(groups, stripeId, |nodesOf|), x, |groups|)| <= |nodesOf[x]|
    {
      SubsetSize(used[x], nodesOf[x]);
    }
  }

  lemma MembersNext(groups: seq<int>, i: nat)
    requires i < |groups|
    ensures forall c :: Members(groups, c, i + 1) == Members(groups, c, i) + if groups[i] == c then [i] else []
  {
  }

  lemma PlaceNext(p: Placed, q: Placed, used: seq<set<nat>>, groups: seq<int>, stripeId: nat, nodesOf: seq<set<nat>>,
      i: nat, node: nat, x: nat)
    requires |nodesOf| > 0 && DistinctNodes(nodesOf) && i < |groups|
    requires PlacedUpTo(p, groups, stripeId, nodesOf, i) && UsedNodes(used, p, groups, stripeId, nodesOf)
    requires x == ClusterOf(stripeId, groups[i], |nodesOf|) && node in nodesOf[x] - used[x]
    requires q.clusters == p.clusters + [x] && q.nodes == p.nodes + [node]
    requires q.groupToBlocks == p.groupToBlocks[groups[i] :=
      (if groups[i] in p.groupToBlocks then p.groupToBlocks[groups[i]] else []) + [i]]
    ensures PlacedUpTo(q, groups, stripeId, nodesOf, i + 1)
  {
    hide ClusterTable, Members;
    assert groups[..i + 1] == groups[..i] + [groups[i]];
    if groups[i] !in groups[..i] {
      NoMembers(groups, groups[i], i);
    }
    MembersNext(groups, i);
    forall j | 0 <= j < i ensures q.nodes[j] != node {
      assert q.nodes[j] == p.nodes[j] && p.nodes[j] in nodesOf[p.clusters[j]];
    }
  }

  lemma UseNext(p: Placed, q: Placed, used: seq<set<nat>>, groups: seq<int>, stripeId: nat, nodesOf: seq<set<nat>>,
      i: nat, node: nat, x: nat)
    requires |nodesOf| > 0 && i < |groups|
    requires PlacedUpTo(p, groups, stripeId, nodesOf, i) && UsedNodes(used, p, groups, stripeId, nodesOf)
    requires x == ClusterOf(stripeId, groups[i], |nodesOf|) && node in nodesOf[x] - used[x]
    requires q.clusters == p.clusters + [x] && q.nodes == p.nodes + [node]
    ensures UsedNodes(used[x := used[x] + {node}], q, groups, stripeId, nodesOf)
  {
    var cs := ClusterTable(groups, stripeId, |nodesOf|);
    assert cs[i] == x;
    hide ClusterTable;
    forall y | 0 <= y < |nodesOf|
      ensures |Members(cs, y, i + 1)| == |Members(cs, y, i)| + if y == x then 1 else 0
    {
    }
  }

  lemma {:induction false} NoMembers(groups: seq<int>, c: int, n: nat)
    requires n <= |groups| && c !in groups[..n]
    ensures Members(groups, c, n) == []
    decreases n
  {
    if n > 0 {
      assert groups[n - 1] == groups[..n][n - 1];
      assert groups[..n] == groups[..n - 1] + [groups[n - 1]];
      NoMembers(groups, c, n - 1);
    }
  }

  lemma {:induction false} MembersMono(groups: seq<int>, c: int, i: nat, n: nat)
    requires i <= n <= |groups|
    ensures |Members(groups, c, i)| <= |Members(groups, c, n)|
    decreases n
  {
    if i < n {
      MembersMono(groups, c, i, n - 1);
    }
  }

  lemma NoRoom(p: Placed, used: seq<set<nat>>, groups: seq<int>, stripeId: nat, nodesOf: seq<set<nat>>, i: nat, x: nat)
    requires |nodesOf| > 0 && i < |groups|
    requires PlacedUpTo(p, groups, stripeId, nodesOf, i) && UsedNodes(used, p, groups, stripeId, nodesOf)
    requires x == ClusterOf(stripeId, groups[i], |nodesOf|) && nodesOf[x] - used[x] == {}
    ensures !Fits(groups, stripeId, nodesOf)
  {
    var cs := ClusterTable(groups, stripeId, |nodesOf|);
    assert cs[i] == x;
    hide ClusterTable, PlacedUpTo;
    assert used[x] <= nodesOf[x];
    assert nodesOf[x] == (nodesOf[x] - used[x]) + used[x];
    assert used[x] == nodesOf[x];
    assert |Members(cs, x, i + 1)| == |Members(cs, x, i)| + 1;
    hide Members;
    MembersMono(cs, x, i + 1, |groups|);
    PlacedLength(p, groups, stripeId, nodesOf, i);
  }

  lemma PlacedLength(p: Placed, groups: seq<int>, stripeId: nat, nodesOf: seq<set<nat>>, n: nat)
    requires |nodesOf| > 0 && n <= |groups| && PlacedUpTo(p, groups, stripeId, nodesOf, n)
    ensures |p.nodes| == n
  {
  }

  // ----- one cluster per group

  lemma ModInjective(a: nat, b: nat, d: nat, m: nat)
    requires m > 0 && b < m && d < m && (a + b) % m == (a + d) % m
    ensures b == d
  {
    var q, s := (a + b) / m, (a + d) / m;
    assert a + b == q * m + (a + b) % m;
    assert a + d == s * m + (a + d) % m;
    if q < s { MulMono(q + 1, s, m); }
    if s < q { MulMono(s + 1, q, m); }
  }

  lemma GroupsInRange(groups: seq<int>, count: nat)
    requires Consecutive(groups, count)
    ensures forall i :: 0 <= i < |groups| ==> 0 <= groups[i] < count
  {
  }

  /** With no more groups than clusters, different groups of a stripe are in different clusters, and the
      blocks in a group's cluster are exactly the group. */
  lemma {:induction false} GroupsToClusters(groups: seq<int>, count: nat, stripeId: nat, clusterNum: nat, c: nat, n: nat)
    requires Consecutive(groups, count) && count <= clusterNum && c < count && n <= |groups|
    ensures clusterNum > 0
    ensures forall i, j :: 0 <= i < |groups| && 0 <= j < |groups| && groups[i] != groups[j] ==>
      ClusterTable(groups, stripeId, clusterNum)[i] != ClusterTable(groups, stripeId, clusterNum)[j]
    ensures Members(ClusterTable(groups, stripeId, clusterNum), (stripeId + c) % clusterNum, n) == Members(groups, c, n)
    decreases n
  {
    hide ClusterTable, Consecutive;
    var cs := ClusterTable(groups, stripeId, clusterNum);
    GroupsInRange(groups, count);
    forall i, j | 0 <= i < |groups| && 0 <= j < |groups| && groups[i] != groups[j] ensures cs[i] != cs[j] {
      if cs[i] == cs[j] {
        ModInjective(stripeId, groups[i], groups[j], clusterNum);
      }
    }
    if n > 0 {
      GroupsToClusters(groups, count, stripeId, clusterNum, c, n - 1);
      if cs[n - 1] == (stripeId + c) % clusterNum {
        ModInjective(stripeId, groups[n - 1], c, clusterNum);
      }
    }
  }

  /** So the stripe fits exactly if every group fits. */
  lemma FitsByGroup(groups: seq<int>, count: nat, stripeId: nat, nodesOf: seq<set<nat>>, perCluster: nat)
    requires Consecutive(groups, count) && 0 < count <= |nodesOf|
    requires forall x :: 0 <= x < |nodesOf| ==> |nodesOf[x]| == perCluster
    ensures Fits(groups, stripeId, nodesOf) <==> GroupsFit(groups, count, perCluster)
  {
    hide Members, ClusterTable, Consecutive;
    var m := |nodesOf|;
    var cs := ClusterTable(groups, stripeId, m);
    if Fits(groups, stripeId, nodesOf) {
      forall c | 0 <= c < count ensures |Members(groups, c, |groups|)| <= perCluster {
        GroupsToClusters(groups, count, stripeId, m, c, |groups|);
        var x := (stripeId + c) % m;
        assert |Members(cs, x, |groups|)| <= |nodesOf[x]|;
      }
    }
    if GroupsFit(groups, count, perCluster) {
      GroupsInRange(groups, count);
      forall x | 0 <= x < m ensures |Members(cs, x, |groups|)| <= |nodesOf[x]| {
        GroupOfCluster(groups, count, stripeId, m, x, perCluster);
      }
    }
  }

  ghost predicate GroupsFit(groups: seq<int>, count: nat, perCluster: nat) {
    forall c :: 0 <= c < count ==> |Members(groups, c, |groups|)| <= perCluster
  }

  lemma GroupOfCluster(groups: seq<int>, count: nat, stripeId: nat, m: nat, x: nat, perCluster: nat)
    requires Consecutive(groups, count) && 0 < count <= m && GroupsFit(groups, count, perCluster)
    ensures |Members(ClusterTable(groups, stripeId, m), x, |groups|)| <= perCluster
  {
    var cs := ClusterTable(groups, stripeId, m);
    hide Members, ClusterTable;
    MembersSound(cs, x, |groups|);
    var s := Members(cs, x, |groups|);
    if s != [] {
      assert s[0] in s;
      var c := groups[s[0]];
      GroupsToClusters(groups, count, stripeId, m, c, |groups|);
      assert |Members(groups, c, |groups|)| <= perCluster;
    }
  }
}
