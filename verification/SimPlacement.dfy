/** The simulator's list of clusters as objects, seen as a sequence of their contents. */
module SimPlacement {
  import opened DecodePlanner
  import opened SimBlocks
  import opened Relocation

  class DataPlacement {
    var clusters: seq<Cluster>

    ghost predicate Valid()
      reads this, clusters
    {
      && (forall i, j :: 0 <= i < j < |clusters| ==> clusters[i] != clusters[j])
      && forall i :: 0 <= i < |clusters| ==> clusters[i].Valid()
    }

    ghost function View(): (v: View)
      reads this, clusters
      ensures |v| == |clusters| && forall i :: 0 <= i < |clusters| ==> v[i] == clusters[i].State()
    {
      seq(|clusters|, i requires 0 <= i < |clusters| reads this, clusters => clusters[i].State())
    }

    lemma Counted(c: nat)
      requires Valid() && c < |clusters|
      ensures View()[c] == clusters[c].State() && View()[c].blocks == clusters[c].blocks
      ensures clusters[c].numOfBlocks == |clusters[c].blocks|
    {
    }

    constructor ()
      ensures Valid() && View() == [] && clusters == []
    {
      clusters := [];
    }

    method NewCluster()
      requires Valid()
      modifies this
      ensures Valid() && View() == old(View()) + [EMPTY_CLUSTER]
      ensures |clusters| == old(|clusters|) + 1 && clusters[..old(|clusters|)] == old(clusters)
      ensures fresh(clusters[old(|clusters|)])
    {
      var c := new Cluster();
      clusters := clusters + [c];
    }

    method AddTo(c: nat, b: Block)
      requires Valid() && c < |clusters|
      modifies clusters
      ensures Valid() && View() == old(View())[c := Added(old(View())[c], b)]
    {
      clusters[c].AddNewBlock(b);
    }

    method PopFrom(c: nat, index: nat)
      requires Valid() && c < |clusters| && index < |clusters[c].blocks|
      modifies clusters
      ensures Valid()
      ensures View() == old(View())[c := ClusterState(Dropped(old(View())[c].blocks, index), old(View())[c].kind)]
    {
      clusters[c].PopBlock(index);
    }

    method RemoveFrom(c: nat, stripe: nat, k: Kind) returns (groups: set<nat>)
      requires Valid() && c < |clusters|
      modifies clusters
      ensures Valid()
      ensures View() == old(View())[c := ClusterState(Without(old(View())[c].blocks, stripe, k), old(View())[c].kind)]
      ensures groups == RemovedGroups(old(View())[c].blocks, stripe, k)
    {
      groups := clusters[c].RemoveBlock(stripe, k);
    }

    method RenameIn(c: nat, from: nat, upTo: nat, n: nat)
      requires Valid() && c < |clusters| && from <= upTo && (n <= from || upTo <= n)
      modifies clusters
      ensures Valid()
      ensures View() == old(View())[c := ClusterState(MergedAll(old(View())[c].blocks, from, upTo, n), old(View())[c].kind)]
    {
      clusters[c].MergeToLargerStripe(from, upTo, n);
    }

    /** The cluster objects are the old ones or new. */
    twostate predicate Grown()
      reads this
    {
      forall i :: 0 <= i < |clusters| ==> clusters[i] in old(clusters) || fresh(clusters[i])
    }

    predicate Candidates(members: set<nat>)
      reads this, clusters
    {
      forall c :: c in members ==> c < |clusters| && (clusters[c].kind == D ==> clusters[c].blocks != [])
    }

    /** The first suitable cluster of a set, in whatever order the set is gone through. */
    method FindTarget(g: nat, cid: nat, b: Block, candidates: set<nat>) returns (t: Option<nat>)
      requires Valid() && Candidates(candidates)
      ensures t.Some? ==> t.value in candidates && CanTake(View(), g, cid, b, t.value)
      ensures t.None? ==> forall c :: c in candidates ==> !CanTake(View(), g, cid, b, c)
    {
      t := None;
      var rest := candidates;
      while rest != {}
        invariant rest <= candidates
        invariant forall c :: c in candidates && c !in rest ==> !CanTake(View(), g, cid, b, c)
        decreases |rest|
      {
        var c :| c in rest;
        assert c in candidates;
        if c != cid && clusters[c].kind == D && clusters[c].numOfBlocks < g + 1 && b.group == clusters[c].blocks[0].group {
          return Some(c);
        }
        rest := rest - {c};
      }
    }

    /** A cluster of the old ones that has room, else one of the new ones, else none. */
    method ChooseTarget(g: nat, cid: nat, b: Block, clusterSet: set<nat>, newSet: set<nat>) returns (found: Option<nat>)
      requires Valid() && Candidates(clusterSet) && Candidates(newSet)
      ensures found.Some? ==> found.value in clusterSet + newSet && CanTake(View(), g, cid, b, found.value)
      ensures found.None? ==> forall c :: c in clusterSet + newSet ==> !CanTake(View(), g, cid, b, c)
    {
      found := FindTarget(g, cid, b, clusterSet);
      if found.None? {
        found := FindTarget(g, cid, b, newSet);
      }
    }

    /** Moves one block to a cluster with room, or to a new one. */
    method MoveTo(cid: nat, index: nat, found: Option<nat>) returns (t: nat)
      requires Valid() && cid < |clusters| && index < |clusters[cid].blocks|
      requires found.Some? ==> found.value < |clusters| && found.value != cid
      modifies this, clusters
      ensures Valid() && Grown() && t == (if found.Some? then found.value else old(|clusters|)) && t != cid
      ensures View() == AfterMove(old(View()), cid, index, t)
      ensures |clusters| == old(|clusters|) + if found.None? then 1 else 0
    {
      hide Valid, Added, Dropped, EMPTY_CLUSTER;
      var b := clusters[cid].blocks[index];
      if found.None? {
        t := |clusters|;
        NewCluster();
      } else {
        t := found.value;
      }
      assert b == View()[cid].blocks[index];
      AddTo(t, b);
      assert View()[cid] == old(View())[cid];
      PopFrom(cid, index);
    }
  }
}
