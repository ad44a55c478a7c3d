/** Where the blocks of a stripe go: the three placements number placement groups, every group goes to a
    cluster of its own, and every block to a node that holds no other block of the stripe. */
module Placement {
  import opened Arithmetic

  // ----- group numbers

  function CeilDiv(a: nat, b: nat): nat
    requires b > 0
  {
    a / b + if a % b != 0 then 1 else 0
  }

  lemma CeilDivRange(a: nat, b: nat)
    requires b > 0
    ensures a <= CeilDiv(a, b) * b < a + b
  {
    var q, m := a / b, a % b;
    assert a == q * b + m && 0 <= m < b;
    assert (q + 1) * b == q * b + b;
  }

  lemma CeilDivBelow(a: nat, b: nat, j: nat)
    requires b > 0
    ensures j < CeilDiv(a, b) <==> j * b < a
  {
    hide CeilDiv;
    var c := CeilDiv(a, b);
    CeilDivRange(a, b);
    if j < c {
      MulMono(j + 1, c, b);
      assert (j + 1) * b == j * b + b;
    } else {
      MulMono(c, j, b);
    }
  }

  lemma CeilDivNext(a: nat, b: nat)
    requires b > 0
    ensures CeilDiv(a + 1, b) == CeilDiv(a, b) + if a % b == 0 then 1 else 0
    ensures a / b == CeilDiv(a + 1, b) - 1
  {
    var q, m := a / b, a % b;
    assert a == q * b + m;
    if m == b - 1 {
      assert a + 1 == (q + 1) * b + 0;
      DivModUnique(a + 1, b, q + 1, 0);
    } else {
      DivModUnique(a + 1, b, q, m + 1);
    }
  }

  /** UniLRC puts the global parities into the local groups, AzureLRC into a group of their own. */
  function UniAzureGroup(uni: bool, k: nat, r: nat, z: nat, i: nat): nat
    requires z > 0 && k / z > 0 && (uni ==> i < k || i >= k + r || r / z > 0)
  {
    if i < k then i / (k / z)
    else if i < k + r then (if uni then (i - k) / (r / z) else z)
    else i - k - r
  }

  /** Chunks of r + 1 data blocks; a local parity joins the last chunk of its local group. */
  function OptimalGroup(k: nat, r: nat, z: nat, i: nat): int
    requires z > 0 && k / z > 0
  {
    var perLocal := CeilDiv(k / z, r + 1);
    if i < k then i % (k / z) / (r + 1) + i / (k / z) * perLocal
    else if i < k + r then z * perLocal
    else (i - k - r + 1) * perLocal - 1
  }

  ghost predicate HasGroup(groups: seq<int>, c: nat) {
    exists i :: 0 <= i < |groups| && groups[i] == c
  }

  /** All groups are numbered from 0 on without a gap. */
  ghost predicate Consecutive(groups: seq<int>, count: nat) {
    && (forall i :: 0 <= i < |groups| ==> 0 <= groups[i] < count)
    && (forall c :: 0 <= c < count ==> HasGroup(groups, c))
  }

  lemma UniAzureConsecutive(uni: bool, k: nat, r: nat, z: nat, groups: seq<int>)
    requires z > 0 && k > 0 && r > 0 && k % z == 0 && (uni ==> r % z == 0)
    requires k / z > 0 && (uni ==> r / z > 0)
    requires |groups| == k + r + z && forall i :: 0 <= i < |groups| ==> groups[i] == UniAzureGroup(uni, k, r, z, i)
    ensures Consecutive(groups, if uni then z else z + 1)
  {
    DivExact(1, k, z);
    if uni { DivExact(1, r, z); }
    forall i | 0 <= i < |groups| ensures 0 <= groups[i] < if uni then z else z + 1 {
      if i < k {
        DivBelow(i, k / z, z);
      } else if i < k + r && uni {
        DivBelow(i - k, r / z, z);
      }
    }
    forall c | 0 <= c < if uni then z else z + 1 ensures HasGroup(groups, c) {
      if c < z {
        assert groups[k + r + c] == c;
      } else {
        assert groups[k] == c;
      }
    }
  }

  lemma OptimalDataGroup(k: nat, r: nat, z: nat, l: nat, o: nat)
    requires z > 0 && k / z > 0 && k % z == 0 && l < z && o < k / z
    ensures l * (k / z) + o < k
    ensures OptimalGroup(k, r, z, l * (k / z) + o) == o / (r + 1) + l * CeilDiv(k / z, r + 1)
  {
    DivExact(1, k, z);
    MulMono(l + 1, z, k / z);
    DivModUnique(l * (k / z) + o, k / z, l, o);
  }

  lemma OptimalParityGroup(k: nat, r: nat, z: nat, i: nat)
    requires z > 0 && k / z > 0 && i >= k
    ensures OptimalGroup(k, r, z, i)
         == if i < k + r then z * CeilDiv(k / z, r + 1) else (i - k - r + 1) * CeilDiv(k / z, r + 1) - 1
  {
    hide CeilDiv;
  }

  lemma OptimalInRange(k: nat, r: nat, z: nat, i: nat)
    requires z > 0 && k % z == 0 && k / z > 0 && i < k + r + z
    ensures 0 <= OptimalGroup(k, r, z, i) < z * CeilDiv(k / z, r + 1) + 1
  {
    hide *;
    var size, per := k / z, CeilDiv(k / z, r + 1);
    CeilDivBelow(size, r + 1, 0);
    if i < k {
      var l, o := i / size, i % size;
      assert l < z by {
        DivExact(1, k, z);
        DivBelow(i, size, z);
      }
      assert i == l * size + o;
      OptimalDataGroup(k, r, z, l, o);
      ChunkInRange(size, r + 1, o);
      PackBelow(l, z, per, o / (r + 1));
    } else if i < k + r {
      OptimalParityGroup(k, r, z, i);
    } else {
      OptimalParityGroup(k, r, z, i);
      LastChunkInRange(i - k - r, z, per);
    }
  }

  lemma LastChunkInRange(l: nat, z: nat, per: nat)
    requires l < z && per > 0
    ensures 0 <= (l + 1) * per - 1 < z * per
  {
    MulMono(l + 1, z, per);
    MulMono(1, l + 1, per);
  }

  lemma ChunkInRange(size: nat, c: nat, o: nat)
    requires c > 0 && o < size
    ensures o / c < CeilDiv(size, c)
  {
    CeilDivBelow(size, c, o / c);
    assert o / c * c + o % c == o;
  }

  lemma OptimalConsecutive(k: nat, r: nat, z: nat, groups: seq<int>)
    requires z > 0 && r > 0 && k % z == 0 && k / z > 0
    requires |groups| == k + r + z && forall i :: 0 <= i < |groups| ==> groups[i] == OptimalGroup(k, r, z, i)
    ensures Consecutive(groups, z * CeilDiv(k / z, r + 1) + 1)
  {
    var size, per := k / z, CeilDiv(k / z, r + 1);
    assert groups[k] == z * per;
    hide OptimalGroup, CeilDiv;
    forall i | 0 <= i < |groups| ensures 0 <= groups[i] < z * per + 1 {
      OptimalInRange(k, r, z, i);
    }
    forall c | 0 <= c < z * per + 1 ensures HasGroup(groups, c) {
      if c < z * per {
        var i := OptimalWitness(k, r, z, c);
        assert groups[i] == c;
      }
    }
  }

  lemma OptimalWitness(k: nat, r: nat, z: nat, c: nat) returns (i: nat)
    requires z > 0 && k % z == 0 && k / z > 0 && c < z * CeilDiv(k / z, r + 1)
    ensures i < k && OptimalGroup(k, r, z, i) == c
  {
    hide OptimalGroup, CeilDiv;
    var size, per := k / z, CeilDiv(k / z, r + 1);
    assert per > 0;
    var l, j := c / per, c % per;
    DivBelow(c, per, z);
    CeilDivBelow(size, r + 1, j);
    OptimalDataGroup(k, r, z, l, j * (r + 1));
    DivModUnique(j * (r + 1), r + 1, j, 0);
    i := l * size + j * (r + 1);
    assert c == l * per + j;
  }

  // ----- UniformLRC: local groups of possibly two sizes, cut into chunks of r + 1

  function LocalSize(k: nat, r: nat, z: nat, l: nat): nat
    requires z > 0
  {
    (k + r) / z + if l + (k + r) % z >= z then 1 else 0
  }

  /** The first placement group of local group l. */
  function FirstGroup(k: nat, r: nat, z: nat, l: nat): nat
    requires z > 0
  {
    if l == 0 then 0 else FirstGroup(k, r, z, l - 1) + CeilDiv(LocalSize(k, r, z, l - 1), r + 1)
  }

  /** Blocks in chunks of c, numbered from first on. */
  function Chunks(first: nat, size: nat, c: nat): (g: seq<int>)
    requires c > 0
    ensures |g| == size && forall j :: 0 <= j < size ==> g[j] == first + j / c
  {
    seq(size, j requires 0 <= j < size => first + j / c)
  }

  /** The groups of the data and global parity blocks in the first l local groups. */
  function UniformGroups(k: nat, r: nat, z: nat, l: nat): seq<int>
    requires z > 0
  {
    if l == 0 then []
    else UniformGroups(k, r, z, l - 1) + Chunks(FirstGroup(k, r, z, l - 1), LocalSize(k, r, z, l - 1), r + 1)
  }

  /** The groups of the first l local parities: each is in the last group of its local group. */
  function UniformLocals(k: nat, r: nat, z: nat, l: nat): (g: seq<int>)
    requires z > 0
    ensures |g| == l && forall i :: 0 <= i < l ==> g[i] == FirstGroup(k, r, z, i + 1) - 1
  {
    seq(l, i requires 0 <= i < l => FirstGroup(k, r, z, i + 1) - 1)
  }

  function UniformTable(k: nat, r: nat, z: nat): seq<int>
    requires z > 0
  {
    UniformGroups(k, r, z, z) + UniformLocals(k, r, z, z)
  }

  lemma {:induction false} UniformLength(k: nat, r: nat, z: nat, l: nat)
    requires z > 0 && l <= z
    ensures |UniformGroups(k, r, z, l)|
         == l * ((k + r) / z) + if l + (k + r) % z >= z then l + (k + r) % z - z else 0
  {
    hide FirstGroup, CeilDiv;
    var q, m := (k + r) / z, (k + r) % z;
    if l == 0 {
    } else {
      UniformLength(k, r, z, l - 1);
      assert l * q == (l - 1) * q + q;
      assert |UniformGroups(k, r, z, l)| == |UniformGroups(k, r, z, l - 1)| + LocalSize(k, r, z, l - 1);
    }
  }

  /** The local groups exhaust the data and global parity blocks. */
  lemma UniformComplete(k: nat, r: nat, z: nat)
    requires z > 0
    ensures |UniformGroups(k, r, z, z)| == k + r && |UniformTable(k, r, z)| == k + r + z
  {
    hide UniformGroups;
    UniformLength(k, r, z, z);
  }

  lemma {:induction false} UniformShorter(k: nat, r: nat, z: nat, l: nat, m: nat)
    requires z > 0 && l <= m
    ensures |UniformGroups(k, r, z, l)| <= |UniformGroups(k, r, z, m)|
    decreases m
  {
    if l < m {
      UniformShorter(k, r, z, l, m - 1);
    }
  }

  lemma {:induction false} UniformInRange(k: nat, r: nat, z: nat, l: nat)
    requires z > 0 && l <= z
    ensures forall i :: 0 <= i < |UniformGroups(k, r, z, l)| ==> 0 <= UniformGroups(k, r, z, l)[i] < FirstGroup(k, r, z, l)
  {
    hide CeilDiv, LocalSize;
    if l > 0 {
      UniformInRange(k, r, z, l - 1);
      var size := LocalSize(k, r, z, l - 1);
      var last := Chunks(FirstGroup(k, r, z, l - 1), size, r + 1);
      forall j | 0 <= j < size ensures 0 <= last[j] < FirstGroup(k, r, z, l) {
        ChunkInRange(size, r + 1, j);
      }
    }
  }

  lemma {:induction false} UniformHasGroup(k: nat, r: nat, z: nat, l: nat, c: nat)
    requires z > 0 && l <= z && c < FirstGroup(k, r, z, l)
    ensures HasGroup(UniformGroups(k, r, z, l), c)
  {
    hide CeilDiv, LocalSize;
    if l > 0 {
      var before, first, size := UniformGroups(k, r, z, l - 1), FirstGroup(k, r, z, l - 1), LocalSize(k, r, z, l - 1);
      var all := UniformGroups(k, r, z, l);
      assert all == before + Chunks(first, size, r + 1);
      if c < first {
        UniformHasGroup(k, r, z, l - 1, c);
        var i :| 0 <= i < |before| && before[i] == c;
        assert all[i] == c;
      } else {
        var d := (c - first) * (r + 1);
        CeilDivBelow(size, r + 1, c - first);
        DivModUnique(d, r + 1, c - first, 0);
        assert all[|before| + d] == c;
      }
    }
  }

  /** With at least as many data and global parity blocks as local groups the numbering has no gap ... */
  lemma UniformConsecutive(k: nat, r: nat, z: nat)
    requires z > 0 && z <= k + r
    ensures Consecutive(UniformTable(k, r, z), FirstGroup(k, r, z, z))
  {
    hide CeilDiv, LocalSize, FirstGroup, UniformGroups;
    var groups, count := UniformTable(k, r, z), FirstGroup(k, r, z, z);
    UniformComplete(k, r, z);
    UniformInRange(k, r, z, z);
    forall l | 0 <= l < z ensures 0 <= UniformLocals(k, r, z, z)[l] < count {
      FirstGroupMono(k, r, z, l + 1, z);
      FirstGroupPositive(k, r, z, l);
    }
    forall c | 0 <= c < count ensures HasGroup(groups, c) {
      UniformHasGroup(k, r, z, z, c);
      var i :| 0 <= i < k + r && UniformGroups(k, r, z, z)[i] == c;
      assert groups[i] == c;
    }
  }

  /** ... and with fewer, local parity 0 gets group -1. */
  lemma UniformTooFewBlocks(k: nat, r: nat, z: nat)
    requires k + r < z
    ensures |UniformTable(k, r, z)| == k + r + z && UniformTable(k, r, z)[k + r] == -1
  {
    UniformComplete(k, r, z);
    assert UniformTable(k, r, z)[k + r] == UniformLocals(k, r, z, z)[0] == FirstGroup(k, r, z, 1) - 1;
    assert (k + r) / z == 0 && (k + r) % z == k + r by { DivModUnique(k + r, z, 0, k + r); }
    assert LocalSize(k, r, z, 0) == 0;
    assert FirstGroup(k, r, z, 0) == 0;
    CeilDivBelow(0, r + 1, 0);
  }

  lemma {:induction false} FirstGroupMono(k: nat, r: nat, z: nat, l: nat, m: nat)
    requires z > 0 && l <= m
    ensures FirstGroup(k, r, z, l) <= FirstGroup(k, r, z, m)
    decreases m
  {
    if l < m {
      FirstGroupMono(k, r, z, l, m - 1);
    }
  }

  lemma FirstGroupPositive(k: nat, r: nat, z: nat, l: nat)
    requires z > 0 && z <= k + r
    ensures FirstGroup(k, r, z, l + 1) > 0
  {
    hide CeilDiv;
    assert LocalSize(k, r, z, l) > 0 by { DivBelow(k + r, z, 1); }
    CeilDivBelow(LocalSize(k, r, z, l), r + 1, 0);
  }

  lemma FirstGroups(k: nat, r: nat, z: nat)
    requires z > 0
    ensures FirstGroup(k, r, z, 0) == 0 && UniformGroups(k, r, z, 0) == []
  {
  }

  lemma LocalSizeIs(k: nat, r: nat, z: nat, i: nat)
    requires z > 0
    ensures LocalSize(k, r, z, i) == (k + r) / z + if i + (k + r) % z >= z then 1 else 0
  {
  }

  /** The two assignment loops of the UniformLRC placement. */
  method AssignUniformGroups(k: nat, r: nat, z: nat) returns (groups: array<int>)
    requires z > 0
    ensures groups[..] == UniformTable(k, r, z)
  {
    hide LocalSize, FirstGroup, CeilDiv, UniformGroups;
    groups := new int[k + r + z];
    var localGroupSize := (k + r) / z;
    var larger := (k + r) % z;
    var groupNum, blockNum := -1, 0;
    FirstGroups(k, r, z);
    UniformComplete(k, r, z);
    for i := 0 to z
      invariant localGroupSize == (k + r) / z + if i > 0 && i - 1 + larger >= z then 1 else 0
      invariant blockNum == |UniformGroups(k, r, z, i)| <= k + r && groupNum == FirstGroup(k, r, z, i) - 1
      invariant groups[..blockNum] == UniformGroups(k, r, z, i)
      invariant groups[k + r..k + r + i] == UniformLocals(k, r, z, i)
    {
      if i + larger == z {
        localGroupSize := localGroupSize + 1;
      }
      LocalSizeIs(k, r, z, i);
      groupNum := AssignLocalGroup(groups, k, r, z, i, localGroupSize, blockNum, groupNum);
      blockNum := blockNum + localGroupSize;
    }
    assert groups[..] == groups[..k + r] + groups[k + r..];
  }

  method AssignLocalGroup(groups: array<int>, k: nat, r: nat, z: nat, i: nat, size: nat, start: nat, before: int)
    returns (groupNum: int)
    requires i < z && groups.Length == k + r + z && size == LocalSize(k, r, z, i)
    requires start == |UniformGroups(k, r, z, i)| <= k + r && before == FirstGroup(k, r, z, i) - 1
    requires groups[..start] == UniformGroups(k, r, z, i)
    requires groups[k + r..k + r + i] == UniformLocals(k, r, z, i)
    modifies groups
    ensures start + size == |UniformGroups(k, r, z, i + 1)| <= k + r && groupNum == FirstGroup(k, r, z, i + 1) - 1
    ensures groups[..start + size] == UniformGroups(k, r, z, i + 1)
    ensures groups[k + r..k + r + i + 1] == UniformLocals(k, r, z, i + 1)
  {
    hide LocalSize, FirstGroup, CeilDiv, UniformGroups, UniformLocals, Chunks;
    NextLocalGroup(k, r, z, i);
    groupNum := AssignChunks(groups, start, size, k + r, r, before);
    ghost var was := groups[..];
    groups[k + r + i] := groupNum;
    LocalSet(old(groups[..]), was, groups[..], start + size, k + r, k + r + i, groupNum);
    NextLocalParity(k, r, z, i);
  }

  lemma NextLocalParity(k: nat, r: nat, z: nat, i: nat)
    requires z > 0
    ensures UniformLocals(k, r, z, i + 1) == UniformLocals(k, r, z, i) + [FirstGroup(k, r, z, i + 1) - 1]
  {
    hide FirstGroup;
  }

  /** The local parity entry of the next group, behind the entries of its other blocks. */
  lemma LocalSet(before: seq<int>, was: seq<int>, now: seq<int>, p: nat, lo: nat, at: nat, v: int)
    requires |was| == |before| && p <= lo <= at < |was| && now == was[at := v] && was[lo..] == before[lo..]
    ensures now[..p] == was[..p] && now[lo..at + 1] == before[lo..at] + [v]
  {
    assert was[lo..at] == was[lo..][..at - lo];
    assert before[lo..at] == before[lo..][..at - lo];
  }

  lemma NextLocalGroup(k: nat, r: nat, z: nat, i: nat)
    requires i < z
    ensures FirstGroup(k, r, z, i + 1) == FirstGroup(k, r, z, i) + CeilDiv(LocalSize(k, r, z, i), r + 1)
    ensures UniformGroups(k, r, z, i + 1)
         == UniformGroups(k, r, z, i) + Chunks(FirstGroup(k, r, z, i), LocalSize(k, r, z, i), r + 1)
    ensures |UniformGroups(k, r, z, i + 1)| <= k + r
  {
    hide LocalSize, CeilDiv;
    UniformShorter(k, r, z, i + 1, z);
    UniformComplete(k, r, z);
  }

  method AssignChunks(groups: array<int>, start: nat, size: nat, limit: nat, r: nat, before: int) returns (groupNum: int)
    requires start + size <= limit <= groups.Length && before >= -1
    modifies groups
    ensures groupNum == before + CeilDiv(size, r + 1)
    ensures groups[..start + size] == old(groups[..start]) + Chunks(before + 1, size, r + 1)
    ensures groups[limit..] == old(groups[limit..])
  {
    groupNum := before;
    ghost var chunks := Chunks(before + 1, size, r + 1);
    for j := 0 to size
      invariant groupNum == before + CeilDiv(j, r + 1)
      invariant groups[..start + j] == old(groups[..start]) + chunks[..j]
      invariant groups[limit..] == old(groups[limit..])
    {
      CeilDivNext(j, r + 1);
      if j % (r + 1) == 0 {
        groupNum := groupNum + 1;
      }
      groups[start + j] := groupNum;
      assert groups[..start + j + 1] == groups[..start + j] + [groupNum];
    }
  }
}
