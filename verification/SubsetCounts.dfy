/** Writing only the first b data blocks: when the client, which cuts its tables down to b blocks and drops the groups that
    get nothing, still arrives at the coordinator's plans. */
module SubsetCounts {
  import opened Arithmetic
  import opened DecodePlanner
  import opened Generators
  import opened Aggregation
  import opened Placement
  import opened ConfigCapacity
  import opened AppendPlan
  import opened GroupClasses
  import opened SetCounts
  import opened SetWrites
  import opened SetShipment

  /** Exactly when a write of the first b data blocks works. For OptimalLRC with r + 1 | k / z the blocks have to stay out of
      the group of the first local parity; for UniformLRC they have to stay out of the last group. */
  predicate SubsetFits(code: Code, k: nat, r: nat, z: nat, b: nat)
    requires z > 0
  {
    match code
    case OptimalLRC => k / z % (r + 1) != 0 || b + r + 1 <= k / z
    case UniformLRC => r <= (k + r) / z <= r + 1 && b <= (z - 1) * ((k + r) / z)
    case _ => true
  }

  /** For all blocks this is the condition of a whole write. */
  lemma AllBlocksFit(code: Code, k: nat, r: nat, z: nat)
    requires SetShape(code, k, r, z)
    ensures SubsetFits(code, k, r, z, k) <==> TablesFit(code, k, r, z)
  {
    if code.OptimalLRC? {
      DivExact(1, k, z);
      MulMono(1, z, k / z);
    } else if code.UniformLRC? {
      SetShapeSizes(code, k, r, z);
      UniformData(k, r, z, (k + r) / z, 0);
    }
  }

  /** The coordinator's groups. */
  function KeptOf(code: Code, k: nat, r: nat, z: nat, b: nat): seq<nat>
    requires SetShape(code, k, r, z) && b <= k
  {
    Nonempty(SetTable(code, k, r, z), k, b, SetGroups(code, k, r, z))
  }

  /** The client's tables, with the data blocks cut down to b; d is the table of data blocks before that. */
  ghost predicate ClientCut(cut: seq<nat>, d: seq<nat>, g: seq<nat>, l: seq<nat>, code: Code, k: nat, r: nat, z: nat, b: nat)
    requires z > 0
  {
    ClientTables(d, g, l, code, k, r, z) && CappedTo(cut, d, b)
  }

  /** The client's numbers for its groups are those of the coordinator's. */
  ghost predicate SubsetAgrees(cut: seq<nat>, g: seq<nat>, l: seq<nat>, code: Code, k: nat, r: nat, z: nat, b: nat)
    requires SetShape(code, k, r, z) && b <= k && |cut| == |g| == |l|
  {
    var u := Useful(cut, g, l, 0, |cut|);
    NumsFor(Picked(cut, u), Picked(g, u), Picked(l, u), SetTable(code, k, r, z), k, r, b, KeptOf(code, k, r, z, b))
  }

  /** The coordinator has more parts, or one of them has another number of blocks for the client. */
  ghost predicate SubsetDiffers(cut: seq<nat>, g: seq<nat>, l: seq<nat>, code: Code, k: nat, r: nat, z: nat, b: nat)
    requires SetShape(code, k, r, z) && b <= k && |cut| == |g| == |l|
  {
    var u, kept := Useful(cut, g, l, 0, |cut|), KeptOf(code, k, r, z, b);
    || |kept| > |u|
    || exists x :: 0 <= x < |kept| && cut[u[x]] + g[u[x]] + l[u[x]] != |PartBlocks(SetTable(code, k, r, z), k, b, kept[x])|
  }

  // ----- lists of groups

  lemma {:induction false} NonemptySound(t: seq<int>, k: nat, b: nat, n: nat)
    requires b <= k <= |t|
    ensures Ascending(Nonempty(t, k, b, n))
    ensures forall c: nat :: c in Nonempty(t, k, b, n) <==> c < n && PartBlocks(t, k, b, c) != []
  {
    hide PartBlocks;
    NonemptyKept(t, k, b, n);
    var kept := Nonempty(t, k, b, n);
    forall c: nat | c in kept ensures c < n {
    }
  }

  lemma {:induction false} NonemptyRun(t: seq<int>, k: nat, b: nat, n: nat)
    requires b <= k <= |t| && forall c: nat :: c < n ==> PartBlocks(t, k, b, c) != []
    ensures Nonempty(t, k, b, n) == AllGroups(n)
  {
    hide PartBlocks;
    if n > 0 {
      NonemptyRun(t, k, b, n - 1);
    }
  }

  lemma {:induction false} NonemptyPrefix(t: seq<int>, k: nat, b: nat, m: nat, n: nat)
    requires b <= k <= |t| && m <= n
    ensures Nonempty(t, k, b, m) <= Nonempty(t, k, b, n)
    decreases n
  {
    hide PartBlocks;
    if m < n {
      NonemptyPrefix(t, k, b, m, n - 1);
      PrefixGrow(Nonempty(t, k, b, m), Nonempty(t, k, b, n - 1), n - 1);
    }
  }

  lemma {:induction false} UsefulSound(a: seq<nat>, b: seq<nat>, c: seq<nat>, n: nat)
    requires n <= |a| == |b| == |c|
    ensures Ascending(Useful(a, b, c, 0, n))
    ensures forall p: nat :: p in Useful(a, b, c, 0, n) <==> p < n && !CommonZero(a, b, c, p)
    decreases n
  {
    hide CommonZero;
    if n > 0 {
      UsefulSound(a, b, c, n - 1);
      var rest := Useful(a, b, c, 0, n - 1);
      assert forall i :: 0 <= i < |rest| ==> rest[i] in rest;
    }
  }

  lemma {:induction false} AscendingLength(a: seq<nat>, b: seq<nat>)
    requires Ascending(a) && Ascending(b) && forall i :: i in a ==> i in b
    ensures |a| <= |b|
  {
    if a == [] {
    } else {
      var m := |a| - 1;
      assert a[m] in b;
      var x :| 0 <= x < |b| && b[x] == a[m];
      forall i | i in a[..m] ensures i in b[..x] {
        var y :| 0 <= y < m && a[y] == i;
        assert i in b && i < b[x];
        var w :| 0 <= w < |b| && b[w] == i;
        assert w < x;
      }
      AscendingLength(a[..m], b[..x]);
    }
  }

  lemma {:induction false} ClassNonempty(t: seq<int>, c: int, lo: nat, hi: nat, i: nat)
    requires lo <= i < hi <= |t| && t[i] == c
    ensures InClass(t, c, lo, hi) != []
    decreases hi
  {
    if i < hi - 1 {
      ClassNonempty(t, c, lo, hi - 1, i);
    }
  }

  // ----- cutting tables down

  /** The first groups' numbers when each of them has w blocks. */
  lemma CappedEven(cut: seq<nat>, num: seq<nat>, b: nat, n: nat, w: nat, i: nat)
    requires CappedTo(cut, num, b) && i < n <= |num| && forall j :: 0 <= j < n ==> num[j] == w
    ensures cut[i] == ChunkSize(b, w, i)
  {
    hide Sum, CappedTo;
    SumConstant(num[..i], w);
    CappedAt(cut, num, b, i);
  }

  /** Nothing is left for a group without blocks, or behind b blocks. */
  lemma CappedNone(cut: seq<nat>, num: seq<nat>, b: nat, n: nat, w: nat, i: nat)
    requires CappedTo(cut, num, b) && i < |num|
    requires num[i] == 0 || (n <= i && b <= n * w && forall j :: 0 <= j < n ==> num[j] == w)
    ensures cut[i] == 0
  {
    CappedAt(cut, num, b, i);
    if num[i] != 0 {
      SumConstant(num[..n], w);
      SumConcat(num[..n], num[n..i]);
      assert num[..n] + num[n..i] == num[..i];
    }
  }

  // ----- tables that fit

  lemma TablesAreNums(d: seq<nat>, g: seq<nat>, l: seq<nat>, code: Code, k: nat, r: nat, z: nat)
    requires SetShape(code, k, r, z) && z > 0 && TablesFit(code, k, r, z) && ClientTables(d, g, l, code, k, r, z)
    ensures |d| == SetGroups(code, k, r, z)
    ensures NumsFor(d, g, l, SetTable(code, k, r, z), k, r, k, AllGroups(SetGroups(code, k, r, z)))
  {
    hide ClientNums, ClientGroups, SetShape, SetGroups, SetTable, TablesFit, InClass;
    NumsAgree(code, k, r, z);
    forall i: nat | i < |d| ensures (d[i], g[i], l[i]) == PlacedNums(code, k, r, z, i) {
    }
  }

  /** Groups that get nothing are those with three zeros. */
  lemma {:induction false} UsefulAreNonempty(d: seq<nat>, g: seq<nat>, l: seq<nat>, t: seq<int>, k: nat, r: nat, b: nat,
      n: nat)
    requires b <= k <= k + r <= |t| && n <= |d| && NumsFor(d, g, l, t, k, r, b, AllGroups(|d|))
    ensures Useful(d, g, l, 0, n) == Nonempty(t, k, b, n)
    decreases n
  {
    hide InClass, PartBlocks;
    if n > 0 {
      UsefulAreNonempty(d, g, l, t, k, r, b, n - 1);
      PartSplit(t, k, r, b, n - 1);
      assert AllGroups(|d|)[n - 1] == n - 1;
    }
  }

  lemma PickedNums(d: seq<nat>, g: seq<nat>, l: seq<nat>, t: seq<int>, k: nat, r: nat, b: nat, kept: seq<nat>)
    requires b <= k <= k + r <= |t| && NumsFor(d, g, l, t, k, r, b, AllGroups(|d|)) && InRange(kept, |d|)
    ensures NumsFor(Picked(d, kept), Picked(g, kept), Picked(l, kept), t, k, r, b, kept)
  {
    hide InClass;
  }

  /** Tables that agree group by group agree after the cut, too. */
  lemma GroupByGroup(cut: seq<nat>, g: seq<nat>, l: seq<nat>, code: Code, k: nat, r: nat, z: nat, b: nat)
    requires SetShape(code, k, r, z) && b <= k && |cut| == SetGroups(code, k, r, z)
    requires NumsFor(cut, g, l, SetTable(code, k, r, z), k, r, b, AllGroups(|cut|))
    ensures |cut| == |g| == |l| && SubsetAgrees(cut, g, l, code, k, r, z, b)
  {
    hide InClass, SetTable, SetGroups, Picked;
    var t := SetTable(code, k, r, z);
    UsefulAreNonempty(cut, g, l, t, k, r, b, |cut|);
    PickedNums(cut, g, l, t, k, r, b, Nonempty(t, k, b, |cut|));
  }

  lemma DataNums(d: seq<nat>, g: seq<nat>, l: seq<nat>, t: seq<int>, k: nat, r: nat)
    requires k + r <= |t| && NumsFor(d, g, l, t, k, r, k, AllGroups(|d|))
    ensures forall i :: 0 <= i < |d| ==> d[i] == |InClass(t, i, 0, k)|
  {
    hide InClass;
  }

  lemma TruncatedNums(cut: seq<nat>, d: seq<nat>, g: seq<nat>, l: seq<nat>, t: seq<int>, k: nat, r: nat, b: nat)
    requires b <= k && k + r <= |t| && NumsFor(d, g, l, t, k, r, k, AllGroups(|d|))
    requires |cut| == |d| && forall i :: 0 <= i < |d| ==> cut[i] == |InClass(t, i, 0, b)|
    ensures |cut| == |g| == |l| && NumsFor(cut, g, l, t, k, r, b, AllGroups(|cut|))
  {
    hide InClass;
  }

  lemma FittingAgrees(cut: seq<nat>, d: seq<nat>, g: seq<nat>, l: seq<nat>, code: Code, k: nat, r: nat, z: nat, b: nat)
    requires SetShape(code, k, r, z) && TablesFit(code, k, r, z) && b <= k && ClientCut(cut, d, g, l, code, k, r, z, b)
    ensures |cut| == |g| == |l| && SubsetAgrees(cut, g, l, code, k, r, z, b)
  {
    hide ClientTables, SetTable, SetGroups, CappedTo, TablesFit, SubsetAgrees, InClass;
    var t := SetTable(code, k, r, z);
    TablesAreNums(d, g, l, code, k, r, z);
    SetRising(code, k, r, z);
    DataNums(d, g, l, t, k, r);
    CappedClasses(cut, d, b, t, k);
    CappedLength(cut, d, b);
    TruncatedNums(cut, d, g, l, t, k, r, b);
    GroupByGroup(cut, g, l, code, k, r, z, b);
  }

  lemma CappedLength(cut: seq<nat>, d: seq<nat>, b: nat)
    requires CappedTo(cut, d, b)
    ensures |cut| == |d|
  {
  }

  // ----- UniformLRC

  /** The client's cut table, entry by entry. */
  lemma UniformCut(cut: seq<nat>, d: seq<nat>, g: seq<nat>, l: seq<nat>, k: nat, r: nat, z: nat, b: nat, c: nat)
    requires SetShape(UniformLRC, k, r, z) && ClientCut(cut, d, g, l, UniformLRC, k, r, z, b) && c < z
    ensures |cut| == |g| == |l| == z
    ensures cut[c] == (if c < z - 1 then ChunkSize(b, (k + r) / z, c) else 0) && g[c] == (if c < z - 1 then 0 else r) && l[c] == 1
  {
    hide ChunkSize, CappedTo, SetShape;
    CappedLength(cut, d, b);
    assert forall i :: 0 <= i < z ==> (d[i], g[i], l[i]) == ClientNums(UniformLRC, k, r, z, i);
    if c < z - 1 {
      CappedEven(cut, d, b, z - 1, (k + r) / z, c);
    } else {
      CappedNone(cut, d, b, 0, 0, c);
    }
  }

  lemma UniformSubsetAgrees(cut: seq<nat>, d: seq<nat>, g: seq<nat>, l: seq<nat>, k: nat, r: nat, z: nat, b: nat)
    requires SetShape(UniformLRC, k, r, z) && z > 0 && b <= k && SubsetFits(UniformLRC, k, r, z, b)
    requires ClientCut(cut, d, g, l, UniformLRC, k, r, z, b)
    ensures |cut| == |g| == |l| && SubsetAgrees(cut, g, l, UniformLRC, k, r, z, b)
  {
    hide ChunkSize, SetTable, SetGroups, InClass, ClientCut, SubsetAgrees, SetShape;
    var t, size := SetTable(UniformLRC, k, r, z), (k + r) / z;
    UniformClasses(k, r, z, size, b);
    UniformCut(cut, d, g, l, k, r, z, b, 0);
    forall x | 0 <= x < z
      ensures cut[x] == |InClass(t, x, 0, b)| && g[x] == |InClass(t, x, k, k + r)| && l[x] == |InClass(t, x, k + r, |t|)|
    {
      UniformCut(cut, d, g, l, k, r, z, b, x);
      UniformNums(k, r, z, size, b, x);
      UniformData(k, r, z, size, x);
      NothingBehind(b, size, z - 1);
    }
    GroupByGroup(cut, g, l, UniformLRC, k, r, z, b);
  }

  lemma NothingBehind(b: nat, w: nat, n: nat)
    ensures ChunkSize(b, w, n) == 0 <==> b <= n * w || w == 0
  {
  }

  lemma UniformSubsetDiffers(cut: seq<nat>, d: seq<nat>, g: seq<nat>, l: seq<nat>, k: nat, r: nat, z: nat, b: nat)
    requires SetShape(UniformLRC, k, r, z) && z > 0 && 0 < b <= k && !SubsetFits(UniformLRC, k, r, z, b)
    requires ClientCut(cut, d, g, l, UniformLRC, k, r, z, b)
    ensures |cut| == |g| == |l| && SubsetDiffers(cut, g, l, UniformLRC, k, r, z, b)
  {
    hide SetShape, ClientCut, SubsetDiffers, SubsetFits;
    UniformCut(cut, d, g, l, k, r, z, b, 0);
    if (k + r) / z > r + 1 {
      ManyKept(k, r, z, b);
      UsefulAtMost(cut, g, l, |cut|);
      MoreKept(cut, g, l, UniformLRC, k, r, z, b);
    } else {
      LastDiffers(cut, d, g, l, k, r, z, b);
    }
  }

  lemma MoreKept(cut: seq<nat>, g: seq<nat>, l: seq<nat>, code: Code, k: nat, r: nat, z: nat, b: nat)
    requires SetShape(code, k, r, z) && b <= k && |cut| == |g| == |l|
    requires |KeptOf(code, k, r, z, b)| > |Useful(cut, g, l, 0, |cut|)|
    ensures SubsetDiffers(cut, g, l, code, k, r, z, b)
  {
    hide KeptOf, Useful;
  }

  lemma {:induction false} UsefulAtMost(a: seq<nat>, b: seq<nat>, c: seq<nat>, n: nat)
    requires n <= |a| == |b| == |c|
    ensures |Useful(a, b, c, 0, n)| <= n
    decreases n
  {
    hide CommonZero;
    if n > 0 {
      UsefulAtMost(a, b, c, n - 1);
    }
  }

  /** In a local group of more than r + 1 blocks the local parity and the first block are in different placement groups. */
  lemma ManyKept(k: nat, r: nat, z: nat, b: nat)
    requires SetShape(UniformLRC, k, r, z) && z > 0 && 0 < b <= k && (k + r) / z > r + 1
    ensures |KeptOf(UniformLRC, k, r, z, b)| > z
  {
    hide SetTable, SetGroups, PartBlocks, FirstGroup, SetShape, Nonempty;
    var t := SetTable(UniformLRC, k, r, z);
    var groups := SetGroups(UniformLRC, k, r, z);
    var some := [0] + ParityGroups(k, r, z, z);
    forall i | 0 <= i < |some| ensures some[i] < groups && PartBlocks(t, k, b, some[i]) != [] {
      if i == 0 {
        FirstPart(k, r, z, b);
      } else {
        ParityGroupsRise(k, r, z, i - 1, i - 1);
        ParityPart(k, r, z, b, i - 1);
      }
    }
    forall i, j | 0 <= i < j < |some| ensures some[i] < some[j] {
      if i == 0 {
        ParityGroupsRise(k, r, z, 0, j - 1);
      } else {
        ParityGroupsRise(k, r, z, i - 1, j - 1);
      }
    }
    NonemptySound(t, k, b, groups);
    AscendingLength(some, Nonempty(t, k, b, groups));
  }

  function Before(n: nat): nat { if n == 0 then 0 else n - 1 }

  /** The groups of the local parities. */
  function ParityGroups(k: nat, r: nat, z: nat, n: nat): (s: seq<nat>)
    requires z > 0
    ensures |s| == n && forall i :: 0 <= i < n ==> s[i] == Before(FirstGroup(k, r, z, i + 1))
  {
    seq(n, i requires 0 <= i < n => Before(FirstGroup(k, r, z, i + 1)))
  }

  lemma TwoGroups(k: nat, r: nat, z: nat, l: nat)
    requires z > 0 && (k + r) / z > r + 1
    ensures FirstGroup(k, r, z, l) + 2 <= FirstGroup(k, r, z, l + 1)
  {
    hide CeilDiv;
    CeilDivBelow(LocalSize(k, r, z, l), r + 1, 1);
  }

  lemma ParityGroupsRise(k: nat, r: nat, z: nat, i: nat, j: nat)
    requires z > 0 && (k + r) / z > r + 1 && i <= j
    ensures 0 < FirstGroup(k, r, z, i + 1) - 1 <= FirstGroup(k, r, z, j + 1) - 1
    ensures i < j ==> FirstGroup(k, r, z, i + 1) - 1 < FirstGroup(k, r, z, j + 1) - 1
  {
    hide FirstGroup;
    TwoGroups(k, r, z, i);
    FirstGroupMono(k, r, z, i + 1, j + 1);
    if i < j {
      TwoGroups(k, r, z, j);
      FirstGroupMono(k, r, z, i + 1, j);
    }
  }

  lemma FirstPart(k: nat, r: nat, z: nat, b: nat)
    requires SetShape(UniformLRC, k, r, z) && z > 0 && 0 < b <= k && (k + r) / z > r + 1
    ensures 0 < SetGroups(UniformLRC, k, r, z) && PartBlocks(SetTable(UniformLRC, k, r, z), k, b, 0) != []
  {
    hide SetTable, FirstGroup, InClass;
    var t := SetTable(UniformLRC, k, r, z);
    ParityGroupsRise(k, r, z, z - 1, z - 1);
    SetTableIs(UniformLRC, k, r, z);
    BlockZero(k, r, z, z);
    UniformComplete(k, r, z);
    ClassNonempty(t, 0, 0, b, 0);
  }

  lemma {:induction false} BlockZero(k: nat, r: nat, z: nat, l: nat)
    requires 0 < l <= z && (k + r) / z > r + 1
    ensures UniformGroups(k, r, z, l) != [] && UniformGroups(k, r, z, l)[0] == 0
  {
    if l > 1 {
      BlockZero(k, r, z, l - 1);
    }
  }

  lemma ParityPart(k: nat, r: nat, z: nat, b: nat, i: nat)
    requires SetShape(UniformLRC, k, r, z) && z > 0 && b <= k && (k + r) / z > r + 1 && i < z
    ensures 0 <= FirstGroup(k, r, z, i + 1) - 1 < SetGroups(UniformLRC, k, r, z)
    ensures PartBlocks(SetTable(UniformLRC, k, r, z), k, b, FirstGroup(k, r, z, i + 1) - 1) != []
  {
    hide SetTable, FirstGroup, InClass, UniformGroups;
    var t, c := SetTable(UniformLRC, k, r, z), FirstGroup(k, r, z, i + 1) - 1;
    ParityGroupsRise(k, r, z, i, z - 1);
    SetTableIs(UniformLRC, k, r, z);
    UniformComplete(k, r, z);
    assert t[k + r + i] == UniformLocals(k, r, z, z)[i] == c;
    ClassNonempty(t, c, k, |t|, k + r + i);
  }

  /** The last part has a whole local group and its parity, of which only the first b data blocks and the global parities
      are written; the client expects r + 1 blocks. */
  lemma LastDiffers(cut: seq<nat>, d: seq<nat>, g: seq<nat>, l: seq<nat>, k: nat, r: nat, z: nat, b: nat)
    requires SetShape(UniformLRC, k, r, z) && z > 0 && 0 < b <= k && !SubsetFits(UniformLRC, k, r, z, b)
    requires (k + r) / z <= r + 1 && ClientCut(cut, d, g, l, UniformLRC, k, r, z, b)
    ensures |cut| == |g| == |l| && SubsetDiffers(cut, g, l, UniformLRC, k, r, z, b)
  {
    hide *;
    EveryGroup(cut, d, g, l, k, r, z, b);
    UniformCut(cut, d, g, l, k, r, z, b, z - 1);
    LastTotal(k, r, z, b);
    DiffersAt(cut, g, l, UniformLRC, k, r, z, b, z - 1);
  }

  /** A part that is in the same place for both sides and differs in size. */
  lemma DiffersAt(cut: seq<nat>, g: seq<nat>, l: seq<nat>, code: Code, k: nat, r: nat, z: nat, b: nat, x: nat)
    requires SetShape(code, k, r, z) && b <= k && x < |cut| == |g| == |l|
    requires x < |KeptOf(code, k, r, z, b)| && KeptOf(code, k, r, z, b)[x] == x
    requires x < |Useful(cut, g, l, 0, |cut|)| && Useful(cut, g, l, 0, |cut|)[x] == x
    requires cut[x] + g[x] + l[x] != |PartBlocks(SetTable(code, k, r, z), k, b, x)|
    ensures SubsetDiffers(cut, g, l, code, k, r, z, b)
  {
    hide KeptOf, Useful, SetTable, PartBlocks, SetShape;
  }

  /** No group is dropped on either side. */
  lemma EveryGroup(cut: seq<nat>, d: seq<nat>, g: seq<nat>, l: seq<nat>, k: nat, r: nat, z: nat, b: nat)
    requires SetShape(UniformLRC, k, r, z) && z > 0 && b <= k && (k + r) / z <= r + 1
    requires ClientCut(cut, d, g, l, UniformLRC, k, r, z, b)
    ensures |cut| == |g| == |l| == z && z - 1 < |KeptOf(UniformLRC, k, r, z, b)| && z - 1 < |Useful(cut, g, l, 0, |cut|)|
    ensures KeptOf(UniformLRC, k, r, z, b)[z - 1] == z - 1 == Useful(cut, g, l, 0, |cut|)[z - 1]
  {
    hide SetTable, PartBlocks, InClass, ChunkSize, ClientCut, SetShape, Useful, Nonempty, SetGroups;
    var t, size := SetTable(UniformLRC, k, r, z), (k + r) / z;
    UniformClasses(k, r, z, size, b);
    UniformCut(cut, d, g, l, k, r, z, b, z - 1);
    forall c: nat | c < z ensures PartBlocks(t, k, b, c) != [] && !CommonZero(cut, g, l, c) {
      UniformNums(k, r, z, size, b, c);
      PartSplit(t, k, r, b, c);
      UniformCut(cut, d, g, l, k, r, z, b, c);
    }
    NonemptyRun(t, k, b, z);
    UsefulRun(cut, g, l, 0, z);
  }

  lemma LastTotal(k: nat, r: nat, z: nat, b: nat)
    requires SetShape(UniformLRC, k, r, z) && z > 0 && 0 < b <= k && !SubsetFits(UniformLRC, k, r, z, b)
    requires (k + r) / z <= r + 1
    ensures |PartBlocks(SetTable(UniformLRC, k, r, z), k, b, z - 1)| != r + 1
  {
    hide SetTable, PartBlocks, InClass, ChunkSize, SetShape;
    var size := (k + r) / z;
    UniformNums(k, r, z, size, b, z - 1);
    PartSplit(SetTable(UniformLRC, k, r, z), k, r, b, z - 1);
    UniformData(k, r, z, size, z - 1);
    LastChunk(b, size, z - 1);
  }

  lemma LastChunk(b: nat, w: nat, n: nat)
    ensures ChunkSize(b, w, n) == if b <= n * w then 0 else if b - n * w < w then b - n * w else w
  {
  }

  // ----- OptimalLRC with r + 1 | k / z

  /** w = r + 1 blocks to a placement group, per of them to a local group. */
  ghost predicate EvenShape(k: nat, r: nat, z: nat, w: nat, per: nat) {
    && SetShape(OptimalLRC, k, r, z) && z > 0 && w == r + 1 && per > 0 && k / z == per * w
  }

  lemma IsEven(k: nat, r: nat, z: nat)
    requires SetShape(OptimalLRC, k, r, z) && z > 0 && k / z % (r + 1) == 0
    ensures EvenShape(k, r, z, r + 1, k / z / (r + 1))
  {
    SetShapeSizes(OptimalLRC, k, r, z);
    DivExact(1, k / z, r + 1);
  }

  lemma EvenSizes(k: nat, r: nat, z: nat, w: nat, per: nat)
    requires EvenShape(k, r, z, w, per)
    ensures k / z % w == 0 && CeilDiv(k / z, w) == per && ClientChunks(k, r, z) == per + 1 && per * w <= k
    ensures SetGroups(OptimalLRC, k, r, z) == z * per + 1 && ClientGroups(OptimalLRC, k, r, z) == z * (per + 1) + 1
  {
    DivModUnique(k / z, w, per, 0);
    DivExact(1, k, z);
    MulMono(1, z, k / z);
  }

  /** The client's cut table, entry by entry, as long as it is about the first local group. */
  lemma EvenCut(cut: seq<nat>, d: seq<nat>, g: seq<nat>, l: seq<nat>, k: nat, r: nat, z: nat, w: nat, per: nat, b: nat, p: nat)
    requires EvenShape(k, r, z, w, per) && ClientCut(cut, d, g, l, OptimalLRC, k, r, z, b)
    requires p < per || (b <= per * w && p < |d|)
    ensures |cut| == |d| == |g| == |l| == z * (per + 1) + 1 && p < |d|
    ensures cut[p] == ChunkSize(b, w, p)
    ensures g[p] == (if p == z * (per + 1) then r else 0)
    ensures l[p] == (if p < z * (per + 1) && p % (per + 1) == per then 1 else 0)
  {
    hide ChunkSize, CappedTo, SetShape;
    EvenSizes(k, r, z, w, per);
    CappedLength(cut, d, b);
    MulMono(1, z, per + 1);
    forall j | 0 <= j < per ensures d[j] == w {
      EvenEntry(k, r, z, w, per, j);
      assert (d[j], g[j], l[j]) == ClientNums(OptimalLRC, k, r, z, j);
    }
    assert (d[p], g[p], l[p]) == ClientNums(OptimalLRC, k, r, z, p);
    EvenEntry(k, r, z, w, per, p);
    if p < per {
      CappedEven(cut, d, b, per, w, p);
    } else {
      CappedNone(cut, d, b, per, w, p);
      MulMono(per, p, w);
      LastChunk(b, w, p);
    }
  }

  lemma EvenEntry(k: nat, r: nat, z: nat, w: nat, per: nat, p: nat)
    requires EvenShape(k, r, z, w, per) && z > 0 && p <= z * (per + 1)
    ensures var (d, g, l) := ClientNums(OptimalLRC, k, r, z, p);
      && (p < per ==> d == w) && g == (if p == z * (per + 1) then r else 0)
      && l == (if p < z * (per + 1) && p % (per + 1) == per then 1 else 0)
  {
    hide ClientNums, SetShape, ClientChunks, CeilDiv, EvenShape;
    EvenSizes(k, r, z, w, per);
    SmallQuotient(p, z, per);
    if p == z * (per + 1) {
      LastEntry(k, r, z, p);
    } else {
      PackedBack(p, z, per + 1);
      EntryAt(k, r, z, w, per, p / (per + 1), p % (per + 1));
    }
  }

  lemma SmallQuotient(p: nat, z: nat, per: nat)
    ensures p < per ==> p % (per + 1) == p && (z > 0 ==> p < z * (per + 1))
  {
    if p < per {
      DivModUnique(p, per + 1, 0, p);
      if z > 0 {
        MulMono(1, z, per + 1);
      }
    }
  }

  lemma EntryAt(k: nat, r: nat, z: nat, w: nat, per: nat, l: nat, j: nat)
    requires EvenShape(k, r, z, w, per) && l < z && j <= per
    ensures ClientNums(OptimalLRC, k, r, z, l * (per + 1) + j) == if j < per then (w, 0, 0) else (0, 0, 1)
  {
    hide ClientNums, SetShape, ClientChunks, CeilDiv;
    EvenSizes(k, r, z, w, per);
    ClientNumsAt(k, r, z, l, j);
  }

  lemma LastEntry(k: nat, r: nat, z: nat, p: nat)
    requires z > 0 && p == z * ClientChunks(k, r, z)
    ensures ClientNums(OptimalLRC, k, r, z, p) == (0, r, 0)
  {
  }

  /** The coordinator's numbers, as long as they are about the first local group. */
  lemma EvenNums(k: nat, r: nat, z: nat, w: nat, per: nat, b: nat, c: nat)
    requires EvenShape(k, r, z, w, per) && b <= k && c <= z * per && (c < per || b <= per * w)
    ensures var t := SetTable(OptimalLRC, k, r, z);
      && |InClass(t, c, 0, b)| == ChunkSize(b, w, c) && |InClass(t, c, k, k + r)| == (if c == z * per then r else 0)
      && |InClass(t, c, k + r, |t|)| == (if c < z * per && c % per == per - 1 then 1 else 0)
  {
    hide SetTable, InClass, ChunkSize, SetShape, EvenShape, CeilDiv;
    EvenSizes(k, r, z, w, per);
    EvenParities(k, r, z, w, per, c);
    if b <= per * w {
      EvenData(k, r, z, w, per, b, c);
    } else {
      EvenData(k, r, z, w, per, per * w, c);
      EvenFull(k, r, z, w, per, b, c);
    }
  }

  lemma EvenParities(k: nat, r: nat, z: nat, w: nat, per: nat, c: nat)
    requires EvenShape(k, r, z, w, per) && c <= z * per
    ensures var t := SetTable(OptimalLRC, k, r, z);
      && |InClass(t, c, k, k + r)| == (if c == z * per then r else 0)
      && |InClass(t, c, k + r, |t|)| == (if c < z * per && c % per == per - 1 then 1 else 0)
  {
    hide SetTable, InClass, ChunkSize, SetShape, CeilDiv, EvenShape;
    EvenSizes(k, r, z, w, per);
    if c == z * per {
      EvenLastParities(k, r, z, w, per);
    } else {
      PackedBack(c, z, per);
      EvenParitiesAt(k, r, z, w, per, c / per, c % per);
    }
  }

  lemma EvenLastParities(k: nat, r: nat, z: nat, w: nat, per: nat)
    requires EvenShape(k, r, z, w, per)
    ensures var t, c := SetTable(OptimalLRC, k, r, z), z * per;
      |InClass(t, c, k, k + r)| == r && |InClass(t, c, k + r, |t|)| == 0
  {
    hide SetTable, InClass, SetShape, CeilDiv;
    EvenSizes(k, r, z, w, per);
    OptimalLastNums(k, r, z);
  }

  lemma EvenParitiesAt(k: nat, r: nat, z: nat, w: nat, per: nat, l: nat, j: nat)
    requires EvenShape(k, r, z, w, per) && l < z && j < per
    ensures var t, c := SetTable(OptimalLRC, k, r, z), l * per + j;
      |InClass(t, c, k, k + r)| == 0 && |InClass(t, c, k + r, |t|)| == if j == per - 1 then 1 else 0
  {
    hide SetTable, InClass, ChunkSize, SetShape, CeilDiv;
    EvenSizes(k, r, z, w, per);
    OptimalNums(k, r, z, l, j);
  }

  lemma EvenData(k: nat, r: nat, z: nat, w: nat, per: nat, b: nat, c: nat)
    requires EvenShape(k, r, z, w, per) && b <= per * w <= k
    ensures |InClass(SetTable(OptimalLRC, k, r, z), c, 0, b)| == ChunkSize(b, w, c)
  {
    hide SetTable, InClass, ChunkSize, SetShape, Count, Chunks;
    var t := SetTable(OptimalLRC, k, r, z);
    FirstChunks(k, r, z, w, per, b);
    ClassCount(t, c, 0, b);
    CountChunks(0, b, w, c);
  }

  lemma FirstChunks(k: nat, r: nat, z: nat, w: nat, per: nat, b: nat)
    requires EvenShape(k, r, z, w, per) && b <= per * w <= k
    ensures SetTable(OptimalLRC, k, r, z)[0..b] == Chunks(0, b, w)
  {
    hide CeilDiv, SetTable;
    SetTableIs(OptimalLRC, k, r, z);
    forall i | 0 <= i < b ensures SetTable(OptimalLRC, k, r, z)[i] == i / w {
      DivModUnique(i, k / z, 0, i);
      OptimalDataGroup(k, r, z, 0, i);
    }
  }

  /** All blocks of the first local group are written. */
  lemma EvenFull(k: nat, r: nat, z: nat, w: nat, per: nat, b: nat, c: nat)
    requires EvenShape(k, r, z, w, per) && per * w <= b <= k && c < per
    requires |InClass(SetTable(OptimalLRC, k, r, z), c, 0, per * w)| == ChunkSize(per * w, w, c)
    ensures |InClass(SetTable(OptimalLRC, k, r, z), c, 0, b)| == ChunkSize(b, w, c)
  {
    hide SetTable, InClass, SetShape, CeilDiv;
    var t := SetTable(OptimalLRC, k, r, z);
    EvenSizes(k, r, z, w, per);
    ClassSplit(t, c, 0, per * w, b);
    ClassSplit(t, c, 0, b, k);
    MulMono(1, z, per);
    DivModUnique(c, per, 0, c);
    OptimalNums(k, r, z, 0, c);
    MulMono(c + 1, per, w);
    assert (c + 1) * w == c * w + w;
  }

  /** m groups with data, then the groups of the local parities, then that of the global parities. */
  function Listed(m: nat, per: nat, z: nat): (s: seq<nat>)
    requires per > 0
    ensures |s| == m + z + 1
    ensures forall x :: 0 <= x < |s| ==> s[x] == if x < m then x else if x < m + z then (x - m) * per + (per - 1) else z * per
  {
    AllGroups(m) + seq(z, l requires 0 <= l < z => l * per + (per - 1)) + [z * per]
  }

  lemma ListedSound(m: nat, per: nat, z: nat)
    requires m < per && z > 0
    ensures Ascending(Listed(m, per, z))
    ensures forall c: nat :: c in Listed(m, per, z) <==> c < m || c == z * per || (c < z * per && c % per == per - 1)
  {
    hide Listed;
    var s := Listed(m, per, z);
    forall i, j | 0 <= i < j < |s| ensures s[i] < s[j] {
      ListedOrder(m, per, z, i, j);
    }
    forall c: nat ensures c in s <==> c < m || c == z * per || (c < z * per && c % per == per - 1) {
      if c in s {
        var x :| 0 <= x < |s| && s[x] == c;
        PairedPlaces(m, per, z, x);
      }
      if c < m || c == z * per || (c < z * per && c % per == per - 1) {
        var x := PlaceOf(m, per, z, c);
      }
    }
  }

  lemma PlaceOf(m: nat, per: nat, z: nat, c: nat) returns (x: nat)
    requires m < per && (c < m || c == z * per || (c < z * per && c % per == per - 1))
    ensures x < m + z + 1 && Listed(m, per, z)[x] == c
  {
    hide Listed;
    if c < m {
      x := c;
    } else if c == z * per {
      x := m + z;
    } else {
      PackedBack(c, z, per);
      ParityPlace(m, per, z, c / per);
      x := m + c / per;
    }
  }

  lemma ParityPlace(m: nat, per: nat, z: nat, l: nat)
    requires per > 0 && l < z
    ensures Listed(m, per, z)[m + l] == l * per + (per - 1)
  {
    hide Listed;
    assert m + l - m == l;
  }

  lemma ListedOrder(m: nat, per: nat, z: nat, i: nat, j: nat)
    requires m < per && z > 0 && i < j < m + z + 1
    ensures Listed(m, per, z)[i] < Listed(m, per, z)[j]
  {
    hide Listed;
    if i >= m && j < m + z {
      MulMono(i - m + 1, j - m, per);
      assert (i - m + 1) * per == (i - m) * per + per;
    } else if i >= m {
      PackBelow(i - m, z, per, per - 1);
    } else if m <= j < m + z {
      MulMono(0, j - m, per);
    } else {
      MulMono(1, z, per);
    }
  }

  lemma PlacedChunk(b: nat, w: nat, c: nat)
    requires w > 0
    ensures ChunkSize(b, w, c) > 0 <==> c < CeilDiv(b, w)
  {
    CeilDivBelow(b, w, c);
  }

  /** The blocks stay out of the group of the first local parity. */
  lemma FewChunks(b: nat, w: nat, per: nat)
    requires w > 0 && per > 0 && b + w <= per * w
    ensures CeilDiv(b, w) < per
  {
    CeilDivBelow(b, w, per - 1);
    assert (per - 1) * w == per * w - w;
  }

  lemma EvenKept(k: nat, r: nat, z: nat, w: nat, per: nat, b: nat)
    requires EvenShape(k, r, z, w, per) && b + w <= per * w
    ensures b <= k && CeilDiv(b, w) < per && KeptOf(OptimalLRC, k, r, z, b) == Listed(CeilDiv(b, w), per, z)
  {
    hide SetTable, InClass, PartBlocks, ChunkSize, SetShape, CeilDiv, Nonempty, Listed;
    var t, m := SetTable(OptimalLRC, k, r, z), CeilDiv(b, w);
    EvenSizes(k, r, z, w, per);
    FewChunks(b, w, per);
    NonemptySound(t, k, b, z * per + 1);
    ListedSound(m, per, z);
    forall c: nat | c <= z * per ensures PartBlocks(t, k, b, c) != [] <==> c < m || c == z * per || c % per == per - 1 {
      EvenNums(k, r, z, w, per, b, c);
      PartSplit(t, k, r, b, c);
      PlacedChunk(b, w, c);
      SomeGlobals(k, r, z);
    }
    MulMono(1, z, per);
    AscendingUnique(Nonempty(t, k, b, z * per + 1), Listed(m, per, z));
  }

  lemma SomeGlobals(k: nat, r: nat, z: nat)
    requires SetShape(OptimalLRC, k, r, z)
    ensures r > 0
  {
  }

  lemma EvenUseful(cut: seq<nat>, d: seq<nat>, g: seq<nat>, l: seq<nat>, k: nat, r: nat, z: nat, w: nat, per: nat, b: nat)
    requires EvenShape(k, r, z, w, per) && b + w <= per * w && ClientCut(cut, d, g, l, OptimalLRC, k, r, z, b)
    ensures |cut| == |g| == |l| && CeilDiv(b, w) < per
    ensures Useful(cut, g, l, 0, |cut|) == Listed(CeilDiv(b, w), per + 1, z)
  {
    hide ChunkSize, SetShape, CeilDiv, Useful, Listed, ClientCut;
    var m, n := CeilDiv(b, w), z * (per + 1);
    FewChunks(b, w, per);
    EvenCut(cut, d, g, l, k, r, z, w, per, b, 0);
    UsefulSound(cut, g, l, |cut|);
    ListedSound(m, per + 1, z);
    forall p: nat | p <= n ensures !CommonZero(cut, g, l, p) <==> p < m || p == n || p % (per + 1) == per {
      EvenCut(cut, d, g, l, k, r, z, w, per, b, p);
      PlacedChunk(b, w, p);
      SomeGlobals(k, r, z);
    }
    MulMono(1, z, per + 1);
    AscendingUnique(Useful(cut, g, l, 0, |cut|), Listed(m, per + 1, z));
  }

  lemma EvenSubsetAgrees(cut: seq<nat>, d: seq<nat>, g: seq<nat>, l: seq<nat>, k: nat, r: nat, z: nat, w: nat, per: nat,
      b: nat)
    requires EvenShape(k, r, z, w, per) && b <= k && b + w <= per * w && ClientCut(cut, d, g, l, OptimalLRC, k, r, z, b)
    ensures |cut| == |g| == |l| && SubsetAgrees(cut, g, l, OptimalLRC, k, r, z, b)
  {
    hide ChunkSize, SetShape, CeilDiv, Useful, Listed, ClientCut, KeptOf, SetTable, InClass;
    var t, m := SetTable(OptimalLRC, k, r, z), CeilDiv(b, w);
    EvenKept(k, r, z, w, per, b);
    EvenUseful(cut, d, g, l, k, r, z, w, per, b);
    EvenCut(cut, d, g, l, k, r, z, w, per, b, 0);
    var kept, u := Listed(m, per, z), Listed(m, per + 1, z);
    forall x | 0 <= x < m + z + 1
      ensures cut[u[x]] == |InClass(t, kept[x], 0, b)| && g[u[x]] == |InClass(t, kept[x], k, k + r)|
      ensures l[u[x]] == |InClass(t, kept[x], k + r, |t|)|
    {
      SameNums(cut, d, g, l, k, r, z, w, per, b, m, x);
    }
  }

  /** The x-th groups of both sides. */
  lemma SameNums(cut: seq<nat>, d: seq<nat>, g: seq<nat>, l: seq<nat>, k: nat, r: nat, z: nat, w: nat, per: nat, b: nat,
      m: nat, x: nat)
    requires EvenShape(k, r, z, w, per) && b <= k && b + w <= per * w && ClientCut(cut, d, g, l, OptimalLRC, k, r, z, b)
    requires m == CeilDiv(b, w) < per && x < m + z + 1 && |cut| == |d| == |g| == |l| == z * (per + 1) + 1
    ensures var t, c, p := SetTable(OptimalLRC, k, r, z), Listed(m, per, z)[x], Listed(m, per + 1, z)[x];
      && p < |cut| && cut[p] == |InClass(t, c, 0, b)| && g[p] == |InClass(t, c, k, k + r)|
      && l[p] == |InClass(t, c, k + r, |t|)|
  {
    hide ChunkSize, SetShape, CeilDiv, ClientCut, SetTable, InClass;
    var c, p := Listed(m, per, z)[x], Listed(m, per + 1, z)[x];
    PairedPlaces(m, per, z, x);
    PairedPlaces(m, per + 1, z, x);
    EvenCut(cut, d, g, l, k, r, z, w, per, b, p);
    EvenNums(k, r, z, w, per, b, c);
    PlacedChunk(b, w, c);
    PlacedChunk(b, w, p);
  }

  lemma PairedPlaces(m: nat, per: nat, z: nat, x: nat)
    requires m < per && z > 0 && x < m + z + 1
    ensures var c := Listed(m, per, z)[x];
      && c <= z * per && (c == z * per <==> x == m + z)
      && (c < z * per && c % per == per - 1 <==> m <= x < m + z) && (x < m ==> c == x) && (x >= m ==> c >= m)
  {
    hide Listed;
    var c := Listed(m, per, z)[x];
    MulMono(1, z, per);
    if x < m {
      DivModUnique(c, per, 0, c);
    } else if x < m + z {
      DivModUnique(c, per, x - m, per - 1);
      PackBelow(x - m, z, per, per - 1);
      MulMono(0, x - m, per);
    }
  }

  /** If data is written to the group of the first local parity, the client cuts its part one block too short. */
  lemma EvenSubsetDiffers(cut: seq<nat>, d: seq<nat>, g: seq<nat>, l: seq<nat>, k: nat, r: nat, z: nat, w: nat, per: nat,
      b: nat)
    requires EvenShape(k, r, z, w, per) && b <= k && b + w > per * w && ClientCut(cut, d, g, l, OptimalLRC, k, r, z, b)
    ensures |cut| == |g| == |l| && SubsetDiffers(cut, g, l, OptimalLRC, k, r, z, b)
  {
    hide SetShape, ClientCut, CeilDiv, SetTable, PartBlocks, Useful, KeptOf, SubsetDiffers;
    EvenRun(cut, d, g, l, k, r, z, w, per, b);
    EvenLast(cut, d, g, l, k, r, z, w, per, b);
    DiffersAt(cut, g, l, OptimalLRC, k, r, z, b, per - 1);
  }

  lemma EvenLast(cut: seq<nat>, d: seq<nat>, g: seq<nat>, l: seq<nat>, k: nat, r: nat, z: nat, w: nat, per: nat, b: nat)
    requires EvenShape(k, r, z, w, per) && b <= k && ClientCut(cut, d, g, l, OptimalLRC, k, r, z, b)
    ensures per - 1 < |cut| == |g| == |l|
    ensures cut[per - 1] + g[per - 1] + l[per - 1] != |PartBlocks(SetTable(OptimalLRC, k, r, z), k, b, per - 1)|
  {
    hide SetTable, InClass, PartBlocks, ChunkSize, SetShape, ClientCut;
    var c := per - 1;
    EvenCut(cut, d, g, l, k, r, z, w, per, b, c);
    MulMono(1, z, per);
    MulMono(1, z, per + 1);
    DivModUnique(c, per, 0, c);
    DivModUnique(c, per + 1, 0, c);
    EvenNums(k, r, z, w, per, b, c);
    PartSplit(SetTable(OptimalLRC, k, r, z), k, r, b, c);
  }

  /** Up to there both sides have all groups. */
  lemma EvenRun(cut: seq<nat>, d: seq<nat>, g: seq<nat>, l: seq<nat>, k: nat, r: nat, z: nat, w: nat, per: nat, b: nat)
    requires EvenShape(k, r, z, w, per) && b <= k && b + w > per * w && ClientCut(cut, d, g, l, OptimalLRC, k, r, z, b)
    ensures per - 1 < |cut| == |g| == |l|
    ensures per - 1 < |KeptOf(OptimalLRC, k, r, z, b)| && per - 1 < |Useful(cut, g, l, 0, |cut|)|
    ensures KeptOf(OptimalLRC, k, r, z, b)[per - 1] == per - 1 == Useful(cut, g, l, 0, |cut|)[per - 1]
  {
    hide SetTable, InClass, PartBlocks, ChunkSize, SetShape, ClientCut, Useful, Nonempty, SetGroups;
    var t := SetTable(OptimalLRC, k, r, z);
    EvenSizes(k, r, z, w, per);
    EvenCut(cut, d, g, l, k, r, z, w, per, b, per - 1);
    MulMono(1, z, per);
    MulMono(1, z, per + 1);
    forall c: nat | c < per ensures PartBlocks(t, k, b, c) != [] && !CommonZero(cut, g, l, c) {
      EvenCut(cut, d, g, l, k, r, z, w, per, b, c);
      EvenNums(k, r, z, w, per, b, c);
      PartSplit(t, k, r, b, c);
      ReachesChunk(b, w, per, c);
    }
    NonemptyRun(t, k, b, per);
    NonemptyPrefix(t, k, b, per, z * per + 1);
    UsefulRun(cut, g, l, 0, per);
    UsefulSplit(cut, g, l, 0, per, |cut|);
  }

  lemma ReachesChunk(b: nat, w: nat, per: nat, c: nat)
    requires c < per && w > 0 && b + w > per * w
    ensures ChunkSize(b, w, c) > 0
  {
    MulMono(c + 1, per, w);
    assert (c + 1) * w == c * w + w;
    LastChunk(b, w, c);
  }

  // ----- all codes

  lemma SubsetAgreement(cut: seq<nat>, d: seq<nat>, g: seq<nat>, l: seq<nat>, code: Code, k: nat, r: nat, z: nat, b: nat)
    requires SetShape(code, k, r, z) && z > 0 && 0 < b <= k && ClientCut(cut, d, g, l, code, k, r, z, b)
    ensures |cut| == |g| == |l|
    ensures if SubsetFits(code, k, r, z, b) then SubsetAgrees(cut, g, l, code, k, r, z, b)
            else SubsetDiffers(cut, g, l, code, k, r, z, b)
  {
    hide SetShape, ClientCut, SubsetAgrees, SubsetDiffers;
    if code.UniformLRC? {
      if SubsetFits(code, k, r, z, b) {
        UniformSubsetAgrees(cut, d, g, l, k, r, z, b);
      } else {
        UniformSubsetDiffers(cut, d, g, l, k, r, z, b);
      }
    } else if TablesFit(code, k, r, z) {
      FittingAgrees(cut, d, g, l, code, k, r, z, b);
    } else {
      IsEven(k, r, z);
      var w, per := r + 1, k / z / (r + 1);
      if b + w <= per * w {
        EvenSubsetAgrees(cut, d, g, l, k, r, z, w, per, b);
      } else {
        EvenSubsetDiffers(cut, d, g, l, k, r, z, w, per, b);
      }
    }
  }
}
