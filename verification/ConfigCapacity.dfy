/** What validateConfig guarantees for the placements: always enough clusters, but not always enough nodes in a
    cluster. The exact shortfalls are stated. */
module ConfigCapacity {
  import opened Arithmetic
  import opened Generators
  import opened Placement
  import opened NodePlacement

  /** The node and cluster bounds of validateConfig. The OptimalLRC bound rounds k / z / (r + 1) up in floating
      point; for z | k that is CeilDiv. */
  predicate Validated(code: Code, k: nat, r: nat, z: nat, nodesPerCluster: nat, clusterNum: nat)
    requires z > 0
  {
    && nodesPerCluster > 0 && clusterNum > 0
    && match code
       case UniLRC => nodesPerCluster > (k + r + z) / z && clusterNum > z
       case AzureLRC => nodesPerCluster > k / z + 1 && clusterNum > z + 1
       case OptimalLRC => nodesPerCluster > r + 1 && clusterNum > CeilDiv(k / z, r + 1) * z + 1
       case UniformLRC =>
         var larger := (k + r) % z;
         && nodesPerCluster > r
         && clusterNum > CeilDiv((k + r) / z + 1, r + 1) * larger + CeilDiv((k + r) / z, r + 1) * (z - larger)
  }

  // ----- counting members

  function Count(s: seq<int>, c: int): nat {
    if s == [] then 0 else Count(s[..|s| - 1], c) + if s[|s| - 1] == c then 1 else 0
  }

  lemma {:induction false} MembersCount(s: seq<int>, c: int, n: nat)
    requires n <= |s|
    ensures |Members(s, c, n)| == Count(s[..n], c)
    decreases n
  {
    if n > 0 {
      MembersCount(s, c, n - 1);
      assert s[..n][..n - 1] == s[..n - 1];
    }
  }

  lemma {:induction false} CountConcat(a: seq<int>, b: seq<int>, c: int)
    ensures Count(a + b, c) == Count(a, c) + Count(b, c)
  {
    if b == [] {
      assert a + b == a;
    } else {
      assert (a + b)[..|a + b| - 1] == a + b[..|b| - 1];
      CountConcat(a, b[..|b| - 1], c);
    }
  }

  lemma {:induction false} CountNone(s: seq<int>, c: int)
    requires c !in s
    ensures Count(s, c) == 0
  {
    if s == [] {
    } else {
      assert s[|s| - 1] in s;
      CountNone(s[..|s| - 1], c);
    }
  }

  /** How many of `size` blocks fall into chunk j. */
  function ChunkSize(size: nat, w: nat, j: nat): nat {
    if size <= j * w then 0 else if size - j * w < w then size - j * w else w
  }

  lemma ChunkSizeNext(size: nat, w: nat, j: nat)
    requires w > 0
    ensures ChunkSize(size + 1, w, j) == ChunkSize(size, w, j) + if size / w == j then 1 else 0
  {
    DivBelow(size, w, j);
    DivBelow(size, w, j + 1);
    assert (j + 1) * w == j * w + w;
  }

  lemma NoChunk(w: nat, j: nat)
    ensures ChunkSize(0, w, j) == 0
  {
  }

  lemma CountLast(s: seq<int>, c: int)
    requires s != []
    ensures Count(s, c) == Count(s[..|s| - 1], c) + if s[|s| - 1] == c then 1 else 0
  {
  }

  lemma {:induction false} CountChunks(first: nat, size: nat, w: nat, c: nat)
    requires w > 0
    ensures Count(Chunks(first, size, w), c) == if c < first then 0 else ChunkSize(size, w, c - first)
    decreases size
  {
    hide *;
    var s := Chunks(first, size, w);
    if size == 0 {
      CountNone(s, c);
      if c >= first {
        NoChunk(w, c - first);
      }
    } else {
      CountChunks(first, size - 1, w, c);
      assert s[..size - 1] == Chunks(first, size - 1, w);
      CountLast(s, c);
      if c >= first {
        ChunkSizeNext(size - 1, w, c - first);
      }
    }
  }

  lemma {:induction false} CountConstant(n: nat, v: int)
    ensures Count(Constant<int>(n, v), v) == n
    decreases n
  {
    if n > 0 {
      CountConstant(n - 1, v);
      assert Constant<int>(n, v)[..n - 1] == Constant<int>(n - 1, v);
    }
  }

  lemma CountThree(a: seq<int>, b: seq<int>, d: seq<int>, c: int)
    ensures Count(a + b + d, c) == Count(a, c) + Count(b, c) + Count(d, c)
  {
    CountConcat(a + b, d, c);
    CountConcat(a, b, c);
  }

  // ----- UniLRC and AzureLRC

  function UniAzureTable(uni: bool, k: nat, r: nat, z: nat): (g: seq<int>)
    requires z > 0 && k / z > 0 && (uni ==> r / z > 0)
    ensures |g| == k + r + z
    ensures forall i :: 0 <= i < k + r + z ==> g[i] == UniAzureGroup(uni, k, r, z, i)
  {
    seq(k + r + z, i requires 0 <= i < k + r + z => UniAzureGroup(uni, k, r, z, i))
  }

  lemma UniAzureCount(uni: bool, k: nat, r: nat, z: nat, c: nat)
    requires z > 0 && k / z > 0 && k % z == 0 && (uni ==> r / z > 0 && r % z == 0)
    requires c < if uni then z else z + 1
    ensures Count(UniAzureTable(uni, k, r, z), c)
         == if c == z then r else k / z + 1 + if uni then r / z else 0
  {
    hide Count, ChunkSize;
    var g := UniAzureTable(uni, k, r, z);
    var a, b, d := Chunks(0, k, k / z), (if uni then Chunks(0, r, r / z) else Constant<int>(r, z)), Chunks(0, z, 1);
    assert g == a + b + d;
    CountThree(a, b, d, c);
    CountChunks(0, k, k / z, c);
    CountChunks(0, z, 1, c);
    FullChunk(k, z, c);
    FullChunk(z, z, c);
    if uni {
      CountChunks(0, r, r / z, c);
      FullChunk(r, z, c);
    } else if c == z {
      CountConstant(r, z);
    } else {
      CountNone(b, c);
    }
  }

  /** Cutting n blocks into z equal chunks. */
  lemma FullChunk(n: nat, z: nat, c: nat)
    requires z > 0 && n % z == 0 && c <= z
    ensures ChunkSize(n, n / z, c) == if c < z then n / z else 0
  {
    DivExact(1, n, z);
    MulMono(c, z, n / z);
    if c < z {
      MulMono(c + 1, z, n / z);
      assert (c + 1) * (n / z) == c * (n / z) + n / z;
    }
  }

  /** UniLRC: a validated configuration has room for every stripe. */
  lemma UniCapacity(k: nat, r: nat, z: nat, nodesPerCluster: nat, clusterNum: nat, stripeId: nat, nodesOf: seq<set<nat>>)
    requires z > 0 && k > 0 && r > 0 && k % z == 0 && r % z == 0
    requires Validated(UniLRC, k, r, z, nodesPerCluster, clusterNum)
    requires |nodesOf| == clusterNum && forall x :: 0 <= x < clusterNum ==> |nodesOf[x]| == nodesPerCluster
    ensures k / z > 0 && r / z > 0
    ensures Fits(UniAzureTable(true, k, r, z), stripeId, nodesOf)
  {
    hide Count, Members, Fits;
    DivExact(1, k, z);
    DivExact(1, r, z);
    var g := UniAzureTable(true, k, r, z);
    UniAzureConsecutive(true, k, r, z, g);
    DivModUnique(k + r + z, z, k / z + r / z + 1, 0);
    forall c | 0 <= c < z ensures |Members(g, c, |g|)| <= nodesPerCluster {
      MembersCount(g, c, |g|);
      assert g[..|g|] == g;
      UniAzureCount(true, k, r, z, c);
    }
    FitsByGroup(g, z, stripeId, nodesOf, nodesPerCluster);
  }

  /** AzureLRC: a validated configuration has room exactly if a cluster has a node for every global parity;
      validateConfig does not ask for that. */
  lemma AzureCapacity(k: nat, r: nat, z: nat, nodesPerCluster: nat, clusterNum: nat, stripeId: nat, nodesOf: seq<set<nat>>)
    requires z > 0 && k > 0 && r > 0 && k % z == 0
    requires Validated(AzureLRC, k, r, z, nodesPerCluster, clusterNum)
    requires |nodesOf| == clusterNum && forall x :: 0 <= x < clusterNum ==> |nodesOf[x]| == nodesPerCluster
    ensures k / z > 0
    ensures Fits(UniAzureTable(false, k, r, z), stripeId, nodesOf) <==> r <= nodesPerCluster
  {
    hide Count, Members, Fits;
    DivExact(1, k, z);
    var g := UniAzureTable(false, k, r, z);
    UniAzureConsecutive(false, k, r, z, g);
    assert g[..|g|] == g;
    forall c | 0 <= c < z + 1 ensures |Members(g, c, |g|)| == if c == z then r else k / z + 1 {
      MembersCount(g, c, |g|);
      UniAzureCount(false, k, r, z, c);
    }
    assert |Members(g, z, |g|)| == r;
    FitsByGroup(g, z + 1, stripeId, nodesOf, nodesPerCluster);
  }

  /** A validated configuration without room: 4 data blocks, 5 global and 2 local parities on 4 clusters of 4 nodes. */
  lemma AzureShortfall(stripeId: nat, nodesOf: seq<set<nat>>)
    requires |nodesOf| == 4 && forall x :: 0 <= x < 4 ==> |nodesOf[x]| == 4
    ensures Validated(AzureLRC, 4, 5, 2, 4, 4) && !Fits(UniAzureTable(false, 4, 5, 2), stripeId, nodesOf)
  {
    hide Fits, UniAzureTable;
    AzureCapacity(4, 5, 2, 4, 4, stripeId, nodesOf);
  }

  // ----- OptimalLRC

  function OptimalTable(k: nat, r: nat, z: nat): (g: seq<int>)
    requires z > 0 && k / z > 0
    ensures |g| == k + r + z
    ensures forall i :: 0 <= i < k + r + z ==> g[i] == OptimalGroup(k, r, z, i)
  {
    seq(k + r + z, i requires 0 <= i < k + r + z => OptimalGroup(k, r, z, i))
  }

  /** The groups of the data blocks of the first l local groups. */
  function OptimalData(size: nat, r: nat, l: nat): seq<int> {
    if l == 0 then [] else OptimalData(size, r, l - 1) + Chunks((l - 1) * CeilDiv(size, r + 1), size, r + 1)
  }

  lemma {:induction false} OptimalDataTable(k: nat, r: nat, z: nat, l: nat)
    requires z > 0 && k / z > 0 && k % z == 0 && l <= z
    ensures l * (k / z) <= k
    ensures OptimalData(k / z, r, l) == OptimalTable(k, r, z)[..l * (k / z)]
    decreases l
  {
    hide OptimalGroup, CeilDiv;
    var size := k / z;
    DivExact(1, k, z);
    MulMono(l, z, size);
    if l > 0 {
      OptimalDataTable(k, r, z, l - 1);
      assert l * size == (l - 1) * size + size;
      var g, last := OptimalTable(k, r, z), Chunks((l - 1) * CeilDiv(size, r + 1), size, r + 1);
      forall o | 0 <= o < size ensures g[(l - 1) * size + o] == last[o] {
        OptimalDataGroup(k, r, z, l - 1, o);
      }
      assert g[..l * size] == g[..(l - 1) * size] + last;
    }
  }

  lemma ChunkSizeAtMost(size: nat, w: nat, j: nat)
    ensures ChunkSize(size, w, j) <= w
    ensures w > 0 && j >= CeilDiv(size, w) ==> ChunkSize(size, w, j) == 0
  {
    if w > 0 {
      CeilDivBelow(size, w, j);
    }
  }

  lemma {:induction false} OptimalDataCount(size: nat, r: nat, l: nat, c: nat)
    ensures Count(OptimalData(size, r, l), c) <= r + 1
    ensures c >= l * CeilDiv(size, r + 1) ==> Count(OptimalData(size, r, l), c) == 0
    decreases l
  {
    var per := CeilDiv(size, r + 1);
    hide Count, ChunkSize, CeilDiv;
    if l == 0 {
      CountNone(OptimalData(size, r, l), c);
    } else {
      var first := (l - 1) * per;
      assert l * per == first + per;
      OptimalDataCount(size, r, l - 1, c);
      CountConcat(OptimalData(size, r, l - 1), Chunks(first, size, r + 1), c);
      CountChunks(first, size, r + 1, c);
      if c >= first {
        ChunkSizeAtMost(size, r + 1, c - first);
      }
    }
  }

  /** The groups of the first l local parities. */
  function OptimalLocals(per: nat, l: nat): seq<int> {
    if l == 0 then [] else OptimalLocals(per, l - 1) + [l * per - 1]
  }

  lemma {:induction false} OptimalLocalsForm(per: nat, l: nat)
    ensures |OptimalLocals(per, l)| == l
    ensures forall i :: 0 <= i < l ==> OptimalLocals(per, l)[i] == (i + 1) * per - 1
    decreases l
  {
    if l > 0 {
      OptimalLocalsForm(per, l - 1);
    }
  }

  lemma {:induction false} OptimalLocalsCount(per: nat, l: nat, c: nat)
    requires per > 0
    ensures Count(OptimalLocals(per, l), c) <= 1
    ensures c >= l * per ==> Count(OptimalLocals(per, l), c) == 0
    decreases l
  {
    if l > 0 {
      var before := OptimalLocals(per, l - 1);
      assert OptimalLocals(per, l)[..|before|] == before;
      OptimalLocalsCount(per, l - 1, c);
      assert l * per == (l - 1) * per + per;
    }
  }

  lemma OptimalCount(k: nat, r: nat, z: nat, c: nat)
    requires z > 0 && k / z > 0 && k % z == 0
    ensures Count(OptimalTable(k, r, z), c) <= r + 2
  {
    var size, per := k / z, CeilDiv(k / z, r + 1);
    var g := OptimalTable(k, r, z);
    var a, b, d := OptimalData(size, r, z), Constant<int>(r, z * per), OptimalLocals(per, z);
    assert g == a + b + d by {
      hide Count;
      OptimalDataTable(k, r, z, z);
      DivExact(1, k, z);
      OptimalLocalsForm(per, z);
      assert z * size == k;
      assert g == g[..k] + g[k..k + r] + g[k + r..];
      assert g[k..k + r] == b;
      assert g[k + r..] == d;
    }
    hide Count, CeilDiv;
    CountThree(a, b, d, c);
    CeilDivBelow(size, r + 1, 0);
    OptimalDataCount(size, r, z, c);
    OptimalLocalsCount(per, z, c);
    if c == z * per {
      CountConstant(r, c);
    } else {
      CountNone(b, c);
    }
  }

  /** OptimalLRC: a validated configuration has room for every stripe. */
  lemma OptimalCapacity(k: nat, r: nat, z: nat, nodesPerCluster: nat, clusterNum: nat, stripeId: nat, nodesOf: seq<set<nat>>)
    requires z > 0 && k > 0 && r > 0 && k % z == 0
    requires Validated(OptimalLRC, k, r, z, nodesPerCluster, clusterNum)
    requires |nodesOf| == clusterNum && forall x :: 0 <= x < clusterNum ==> |nodesOf[x]| == nodesPerCluster
    ensures k / z > 0
    ensures Fits(OptimalTable(k, r, z), stripeId, nodesOf)
  {
    hide Count, Members, Fits, CeilDiv, OptimalTable;
    DivExact(1, k, z);
    var g, count := OptimalTable(k, r, z), z * CeilDiv(k / z, r + 1) + 1;
    OptimalConsecutive(k, r, z, g);
    forall c | 0 <= c < count ensures |Members(g, c, |g|)| <= nodesPerCluster {
      MembersCount(g, c, |g|);
      assert g[..|g|] == g;
      OptimalCount(k, r, z, c);
    }
    FitsByGroup(g, count, stripeId, nodesOf, nodesPerCluster);
  }

  // ----- UniformLRC

  /** Chunk j of local group l: its data and global parity blocks, and the local parity in the last chunk. */
  function UniformGroupSize(k: nat, r: nat, z: nat, l: nat, j: nat): nat
    requires z > 0
  {
    var size := LocalSize(k, r, z, l);
    ChunkSize(size, r + 1, j) + if j + 1 == CeilDiv(size, r + 1) then 1 else 0
  }

  /** A run of chunks touches the groups from `first` on, one per chunk. */
  lemma ChunkHit(first: nat, size: nat, w: nat, c: nat)
    requires w > 0
    ensures Count(Chunks(first, size, w), c)
         == if first <= c < first + CeilDiv(size, w) then ChunkSize(size, w, c - first) else 0
  {
    hide *;
    CountChunks(first, size, w, c);
    if c >= first {
      ChunkSizeAtMost(size, w, c - first);
    }
  }

  /** Local group l has the placement groups from FirstGroup(l) to FirstGroup(l + 1) - 1, and no other has them. */
  lemma GroupOwner(k: nat, r: nat, z: nat, l: nat, m: nat, c: nat)
    requires z > 0 && FirstGroup(k, r, z, l) <= c < FirstGroup(k, r, z, l) + CeilDiv(LocalSize(k, r, z, l), r + 1)
    ensures FirstGroup(k, r, z, m) <= c < FirstGroup(k, r, z, m) + CeilDiv(LocalSize(k, r, z, m), r + 1) ==> l == m
  {
    hide CeilDiv, LocalSize;
    if l < m {
      FirstGroupMono(k, r, z, l + 1, m);
    } else if m < l {
      FirstGroupMono(k, r, z, m + 1, l);
    }
  }

  lemma {:induction false} UniformGroupsCount(k: nat, r: nat, z: nat, m: nat, l: nat, j: nat)
    requires z > 0 && j < CeilDiv(LocalSize(k, r, z, l), r + 1)
    ensures Count(UniformGroups(k, r, z, m), FirstGroup(k, r, z, l) + j)
         == if l < m then ChunkSize(LocalSize(k, r, z, l), r + 1, j) else 0
    decreases m
  {
    hide Count, Chunks, CeilDiv, LocalSize, FirstGroup, ChunkSize;
    var c := FirstGroup(k, r, z, l) + j;
    if m == 0 {
      CountNone([], c);
    } else {
      var first, size := FirstGroup(k, r, z, m - 1), LocalSize(k, r, z, m - 1);
      UniformGroupsCount(k, r, z, m - 1, l, j);
      CountConcat(UniformGroups(k, r, z, m - 1), Chunks(first, size, r + 1), c);
      ChunkHit(first, size, r + 1, c);
      GroupOwner(k, r, z, l, m - 1, c);
    }
  }

  lemma {:induction false} UniformLocalsCount(k: nat, r: nat, z: nat, m: nat, l: nat, j: nat)
    requires 0 < z <= k + r && j < CeilDiv(LocalSize(k, r, z, l), r + 1)
    ensures Count(UniformLocals(k, r, z, m), FirstGroup(k, r, z, l) + j)
         == if l < m && j + 1 == CeilDiv(LocalSize(k, r, z, l), r + 1) then 1 else 0
    decreases m
  {
    hide Count, CeilDiv, LocalSize, FirstGroup, UniformLocals;
    var c := FirstGroup(k, r, z, l) + j;
    if m == 0 {
      CountNone(UniformLocals(k, r, z, 0), c);
    } else {
      UniformLocalsCount(k, r, z, m - 1, l, j);
      LocalsStep(k, r, z, m - 1, c);
      LastGroupOf(k, r, z, m - 1);
      LastGroupOf(k, r, z, l);
      GroupOwner(k, r, z, l, m - 1, c);
    }
  }

  lemma LocalsStep(k: nat, r: nat, z: nat, m: nat, c: nat)
    requires z > 0
    ensures Count(UniformLocals(k, r, z, m + 1), c)
         == Count(UniformLocals(k, r, z, m), c) + if FirstGroup(k, r, z, m + 1) - 1 == c then 1 else 0
  {
    hide FirstGroup;
    var s := UniformLocals(k, r, z, m + 1);
    assert s[..m] == UniformLocals(k, r, z, m);
  }

  lemma LastGroupOf(k: nat, r: nat, z: nat, l: nat)
    requires 0 < z <= k + r
    ensures FirstGroup(k, r, z, l + 1) == FirstGroup(k, r, z, l) + CeilDiv(LocalSize(k, r, z, l), r + 1)
    ensures FirstGroup(k, r, z, l) < FirstGroup(k, r, z, l + 1)
  {
    hide CeilDiv, LocalSize;
    FirstGroupIncreases(k, r, z, l);
  }

  lemma FirstGroupIncreases(k: nat, r: nat, z: nat, l: nat)
    requires 0 < z <= k + r
    ensures FirstGroup(k, r, z, l) < FirstGroup(k, r, z, l + 1)
  {
    hide CeilDiv;
    assert LocalSize(k, r, z, l) > 0 by { DivBelow(k + r, z, 1); }
    CeilDivBelow(LocalSize(k, r, z, l), r + 1, 0);
  }

  lemma UniformCount(k: nat, r: nat, z: nat, l: nat, j: nat)
    requires 0 < z <= k + r && l < z && j < CeilDiv(LocalSize(k, r, z, l), r + 1)
    ensures Count(UniformTable(k, r, z), FirstGroup(k, r, z, l) + j) == UniformGroupSize(k, r, z, l, j)
  {
    hide Count, UniformGroups, FirstGroup, LocalSize, CeilDiv, ChunkSize;
    CountConcat(UniformGroups(k, r, z, z), UniformLocals(k, r, z, z), FirstGroup(k, r, z, l) + j);
    UniformGroupsCount(k, r, z, z, l, j);
    UniformLocalsCount(k, r, z, z, l, j);
  }

  /** Every group number belongs to a chunk of a local group. */
  lemma {:induction false} LocateGroup(k: nat, r: nat, z: nat, m: nat, c: nat) returns (l: nat, j: nat)
    requires z > 0 && c < FirstGroup(k, r, z, m)
    ensures l < m && j < CeilDiv(LocalSize(k, r, z, l), r + 1) && c == FirstGroup(k, r, z, l) + j
  {
    hide CeilDiv, LocalSize;
    if c < FirstGroup(k, r, z, m - 1) {
      l, j := LocateGroup(k, r, z, m - 1, c);
    } else {
      l, j := m - 1, c - FirstGroup(k, r, z, m - 1);
    }
  }

  /** Some local group is cut into full chunks only; its last chunk then has r + 2 blocks with the local parity. */
  ghost predicate HasFullGroup(k: nat, r: nat, z: nat)
    requires z > 0
  {
    exists l :: 0 <= l < z && LocalSize(k, r, z, l) % (r + 1) == 0
  }

  lemma GroupSizeBound(k: nat, r: nat, z: nat, l: nat, j: nat)
    requires 0 < z <= k + r && j < CeilDiv(LocalSize(k, r, z, l), r + 1)
    ensures UniformGroupSize(k, r, z, l, j) <= r + 2
    ensures LocalSize(k, r, z, l) % (r + 1) != 0 ==> UniformGroupSize(k, r, z, l, j) <= r + 1
    ensures LocalSize(k, r, z, l) % (r + 1) == 0 && j + 1 == CeilDiv(LocalSize(k, r, z, l), r + 1) ==>
      UniformGroupSize(k, r, z, l, j) == r + 2
  {
    var size := LocalSize(k, r, z, l);
    hide LocalSize;
    var q, m := size / (r + 1), size % (r + 1);
    assert size == q * (r + 1) + m;
    if j + 1 == CeilDiv(size, r + 1) {
      if m == 0 {
        assert q * (r + 1) == j * (r + 1) + (r + 1);
      } else {
        assert j == q;
      }
    }
  }

  /** UniformLRC with at least as many data and global parity blocks as local groups: room for the stripe exactly
      if there are r + 2 nodes to a cluster or no local group is a multiple of r + 1. validateConfig asks for
      r + 1 nodes only. */
  lemma UniformCapacity(k: nat, r: nat, z: nat, nodesPerCluster: nat, clusterNum: nat, stripeId: nat, nodesOf: seq<set<nat>>)
    requires 0 < z <= k + r
    requires nodesPerCluster > r && FirstGroup(k, r, z, z) <= clusterNum
    requires |nodesOf| == clusterNum && forall x :: 0 <= x < clusterNum ==> |nodesOf[x]| == nodesPerCluster
    ensures |nodesOf| > 0
    ensures Fits(UniformTable(k, r, z), stripeId, nodesOf) <==> nodesPerCluster >= r + 2 || !HasFullGroup(k, r, z)
  {
    hide Count, Members, Fits, CeilDiv, LocalSize, UniformTable, UniformGroupSize, FirstGroup;
    var g, count := UniformTable(k, r, z), FirstGroup(k, r, z, z);
    FirstGroupPositive(k, r, z, z - 1);
    UniformConsecutive(k, r, z);
    FitsByGroup(g, count, stripeId, nodesOf, nodesPerCluster);
    if HasFullGroup(k, r, z) {
      var l :| 0 <= l < z && LocalSize(k, r, z, l) % (r + 1) == 0;
      LastGroupOf(k, r, z, l);
      var j := CeilDiv(LocalSize(k, r, z, l), r + 1) - 1;
      var c := FirstGroup(k, r, z, l) + j;
      FirstGroupMono(k, r, z, l + 1, z);
      GroupMembers(k, r, z, l, j);
      GroupSizeBound(k, r, z, l, j);
      assert |Members(g, c, |g|)| == r + 2;
    }
    if nodesPerCluster >= r + 2 || !HasFullGroup(k, r, z) {
      forall c | 0 <= c < count ensures |Members(g, c, |g|)| <= nodesPerCluster {
        var l, j := LocateGroup(k, r, z, z, c);
        GroupMembers(k, r, z, l, j);
        GroupSizeBound(k, r, z, l, j);
      }
    }
  }

  lemma GroupMembers(k: nat, r: nat, z: nat, l: nat, j: nat)
    requires 0 < z <= k + r && l < z && j < CeilDiv(LocalSize(k, r, z, l), r + 1)
    ensures var g := UniformTable(k, r, z);
      |Members(g, FirstGroup(k, r, z, l) + j, |g|)| == UniformGroupSize(k, r, z, l, j)
  {
    hide *;
    var g := UniformTable(k, r, z);
    MembersCount(g, FirstGroup(k, r, z, l) + j, |g|);
    assert g[..|g|] == g;
    UniformCount(k, r, z, l, j);
  }

  /** The cluster bound of validateConfig is about the right number: it is the number of groups. */
  lemma {:induction false} UniformGroupNumber(k: nat, r: nat, z: nat, m: nat)
    requires z > 0 && m <= z
    ensures var larger := (k + r) % z;
      FirstGroup(k, r, z, m) ==
        CeilDiv((k + r) / z, r + 1) * (if m + larger >= z then z - larger else m)
        + CeilDiv((k + r) / z + 1, r + 1) * (if m + larger >= z then m + larger - z else 0)
    decreases m
  {
    var a, b := CeilDiv((k + r) / z, r + 1), CeilDiv((k + r) / z + 1, r + 1);
    var larger := (k + r) % z;
    if m > 0 {
      UniformGroupNumber(k, r, z, m - 1);
      hide CeilDiv;
      if m - 1 + larger >= z {
        assert b * (m + larger - z) == b * (m - 1 + larger - z) + b;
      } else {
        assert a * m == a * (m - 1) + a;
      }
    }
  }

  lemma UniformClusters(k: nat, r: nat, z: nat, nodesPerCluster: nat, clusterNum: nat)
    requires z > 0 && Validated(UniformLRC, k, r, z, nodesPerCluster, clusterNum)
    ensures FirstGroup(k, r, z, z) < clusterNum
  {
    hide CeilDiv, FirstGroup;
    UniformGroupNumber(k, r, z, z);
  }

  /** A validated configuration without room: 3 data blocks, 1 global and 2 local parities on 3 clusters of 2 nodes. */
  lemma UniformShortfall(stripeId: nat, nodesOf: seq<set<nat>>)
    requires |nodesOf| == 3 && forall x :: 0 <= x < 3 ==> |nodesOf[x]| == 2
    ensures Validated(UniformLRC, 3, 1, 2, 2, 3) && !Fits(UniformTable(3, 1, 2), stripeId, nodesOf)
  {
    assert LocalSize(3, 1, 2, 0) == 2;
    UniformClusters(3, 1, 2, 2, 3);
    hide Fits, UniformTable, LocalSize, FirstGroup;
    UniformCapacity(3, 1, 2, 2, 3, stripeId, nodesOf);
  }

  /** With fewer data blocks and global parities than groups, local parity 0 has no cluster in every stripe whose own cluster
      is 0. */
  lemma UniformNoCluster(k: nat, r: nat, z: nat, stripeId: nat, nodesOf: seq<set<nat>>)
    requires k + r < z && |nodesOf| > 1 && stripeId % |nodesOf| == 0
    ensures !Fits(UniformTable(k, r, z), stripeId, nodesOf)
  {
    UniformTooFewBlocks(k, r, z);
    hide UniformTable, Fits;
    NoCluster(UniformTable(k, r, z), stripeId, nodesOf, k + r);
  }

  /** A validated configuration with a group -1: 1 data block, 1 global and 3 local parities on 3 clusters of 2 nodes. Every
      third stripe gets no cluster for its first local parity; the others fit. */
  lemma UniformGroupMissing(stripeId: nat, nodesOf: seq<set<nat>>)
    requires |nodesOf| == 3 && forall x :: 0 <= x < 3 ==> |nodesOf[x]| == 2
    ensures Validated(UniformLRC, 1, 1, 3, 2, 3) && |UniformTable(1, 1, 3)| == 5 && UniformTable(1, 1, 3)[2] == -1
    ensures Fits(UniformTable(1, 1, 3), stripeId, nodesOf) <==> stripeId % 3 != 0
  {
    SmallTable();
    hide UniformTable, Fits, Members;
    var t, s := UniformTable(1, 1, 3), stripeId % 3;
    if s == 0 {
      UniformNoCluster(1, 1, 3, stripeId, nodesOf);
    } else {
      var cs := ClusterTable(t, stripeId, 3);
      assert cs[2] == s - 1;
      SmallClusters(stripeId);
      forall x | 0 <= x < 3 ensures |Members(cs, x, 5)| <= 2 {
        ThreePlaces(cs, x);
      }
      EachFits(t, stripeId, nodesOf);
    }
  }

  lemma SmallTable()
    ensures UniformTable(1, 1, 3) == [0, 1, -1, 0, 1]
  {
  }

  lemma SmallClusters(stripeId: nat)
    requires stripeId % 3 != 0
    ensures ClusterOf(stripeId, 0, 3) == stripeId % 3 && ClusterOf(stripeId, 1, 3) == if stripeId % 3 == 2 then 0 else 2
    ensures ClusterOf(stripeId, -1, 3) == stripeId % 3 - 1
  {
    ModAdd(stripeId, 1, 3);
  }

  lemma EachFits(groups: seq<int>, stripeId: nat, nodesOf: seq<set<nat>>)
    requires |nodesOf| > 0 && forall i :: 0 <= i < |groups| ==> ClusterOf(stripeId, groups[i], |nodesOf|) >= 0
    requires forall x :: 0 <= x < |nodesOf| ==>
      |Members(ClusterTable(groups, stripeId, |nodesOf|), x, |groups|)| <= |nodesOf[x]|
    ensures Fits(groups, stripeId, nodesOf)
  {
  }

  /** Two blocks in each of two clusters and one in a third. */
  lemma ThreePlaces(cs: seq<int>, x: int)
    requires |cs| == 5 && cs[3] == cs[0] && cs[4] == cs[1] && cs[0] != cs[1] && cs[2] != cs[0] && cs[2] != cs[1]
    ensures |Members(cs, x, 5)| <= 2
  {
    assert |Members(cs, x, 1)| == if cs[0] == x then 1 else 0;
    assert |Members(cs, x, 2)| == if cs[0] == x || cs[1] == x then 1 else 0;
    assert |Members(cs, x, 3)| <= 1;
    assert Members(cs, x, 4) == Members(cs, x, 3) + if cs[3] == x then [3] else [];
  }

  // ----- the parameters of UniLRC

  /** The numbers of data blocks and global parities that loadConfig computes for UniLRC. */
  function UniParameters(alpha: nat, z: nat): (int, int) {
    (alpha * z * z - alpha * z, alpha * z)
  }

  /** They are what the placement, the code and the appends need: multiples of z, and positive if z is at least 2. */
  lemma UniParametersFit(alpha: nat, z: nat)
    requires z > 0
    ensures var (k, r) := UniParameters(alpha, z);
      && k >= 0 && k % z == 0 && r % z == 0 && k / z == alpha * (z - 1) && r / z == alpha
      && (alpha > 0 && z > 1 ==> k > 0 && r > 0)
  {
    hide UniParameters;
    var (k, r) := UniParameters(alpha, z);
    var q := alpha * (z - 1);
    Factored(alpha, z, q);
    Quotient(k, q, z);
    Quotient(r, alpha, z);
    if alpha > 0 && z > 1 {
      Positive(alpha, z, q, k, r);
    }
  }

  lemma Factored(alpha: nat, z: nat, q: nat)
    requires z > 0 && q == alpha * (z - 1)
    ensures UniParameters(alpha, z) == (q * z, alpha * z)
  {
    assert alpha * z == q + alpha;
    assert alpha * z * z == q * z + alpha * z;
  }

  lemma Quotient(k: int, q: nat, z: nat)
    requires z > 0 && k == q * z
    ensures k >= 0 && k % z == 0 && k / z == q
  {
    DivModUnique(k, z, q, 0);
  }

  lemma Positive(alpha: nat, z: nat, q: nat, k: int, r: int)
    requires alpha > 0 && z > 1 && q == alpha * (z - 1) && k == q * z && r == alpha * z
    ensures k > 0 && r > 0
  {
    MulMono(1, alpha, z - 1);
    MulMono(1, q, z);
    MulMono(1, alpha, z);
  }

  /** So every UniLRC configuration that is loaded and validated has room for every stripe, unless alpha is 0 or z is 1,
      which leaves no data. */
  lemma LoadedUniCapacity(alpha: nat, z: nat, nodesPerCluster: nat, clusterNum: nat, stripeId: nat, nodesOf: seq<set<nat>>)
    requires alpha > 0 && z > 1
    requires UniParameters(alpha, z).0 >= 0 && UniParameters(alpha, z).1 >= 0
    requires Validated(UniLRC, UniParameters(alpha, z).0, UniParameters(alpha, z).1, z, nodesPerCluster, clusterNum)
    requires |nodesOf| == clusterNum && forall x :: 0 <= x < clusterNum ==> |nodesOf[x]| == nodesPerCluster
    ensures UniParameters(alpha, z).0 / z > 0 && UniParameters(alpha, z).1 / z > 0
    ensures Fits(UniAzureTable(true, UniParameters(alpha, z).0, UniParameters(alpha, z).1, z), stripeId, nodesOf)
  {
    UniParametersFit(alpha, z);
    hide UniParameters, Fits, Validated;
    var (k, r) := UniParameters(alpha, z);
    UniCapacity(k, r, z, nodesPerCluster, clusterNum, stripeId, nodesOf);
  }
}
