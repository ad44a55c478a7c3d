/** Repair of an AzureLRC global parity across racks: the k rows used are always independent, the racks together
    read exactly those rows, and the XOR of what they send is the lost block. */
module AzureGlobalRepair {
  import opened Arithmetic
  import opened Field
  import opened Tables
  import opened LinearAlgebra
  import opened GaussJordan
  import opened Independence
  import opened DecodePlanner
  import opened Vandermonde
  import opened Generators
  import opened Encoder
  import opened Aggregation
  import opened NodePlacement
  import opened ConfigCapacity
  import opened ProxyRecovery
  import opened LocalGroups
  import opened LocalRepair

  /** k survivors in the order of their numbers, starting after the first group of data blocks. */
  function UsedRows(k: nat, r: nat, size: nat, failed: nat): seq<nat>
    requires size <= k
  {
    var s := Survivors(size, k + r, {failed});
    if |s| < k then s else s[..k]
  }

  /** z | k, a lost global parity, and enough other parities to stand in for one group of data blocks. */
  predicate AzureShape(k: nat, r: nat, z: nat, failed: nat) {
    && Shape(AzureLRC, k, r, z) && k <= failed < k + r && k / z + 1 <= r <= 255
  }

  /** The same in terms of the number of data blocks in a group. */
  predicate AzureSizes(k: nat, r: nat, size: nat, failed: nat) {
    size <= k <= failed < k + r && size + 1 <= r <= 255
  }

  lemma GroupWithinData(k: nat, z: nat)
    requires z > 0 && k % z == 0
    ensures k / z <= k
  {
    DivExact(1, k, z);
    MulMono(1, z, k / z);
  }

  lemma {:induction false} SurvivorsSplit(lo: nat, mid: nat, hi: nat, failed: set<nat>)
    requires lo <= mid <= hi
    ensures Survivors(lo, hi, failed) == Survivors(lo, mid, failed) + Survivors(mid, hi, failed)
    decreases hi
  {
    if mid == hi {
      assert Survivors(mid, hi, failed) == [];
    } else {
      SurvivorsSplit(lo, mid, hi - 1, failed);
    }
  }

  lemma {:induction false} SurvivorsAll(lo: nat, hi: nat, failed: set<nat>)
    requires lo <= hi && forall f :: f in failed ==> !(lo <= f < hi)
    ensures |Survivors(lo, hi, failed)| == hi - lo
    ensures forall i :: 0 <= i < hi - lo ==> Survivors(lo, hi, failed)[i] == lo + i
    decreases hi
  {
    if lo < hi {
      SurvivorsAll(lo, hi - 1, failed);
    }
  }

  lemma {:induction false} SurvivorsOneLess(lo: nat, hi: nat, failed: nat)
    requires lo <= hi
    ensures |Survivors(lo, hi, {failed})| == hi - lo - if lo <= failed < hi then 1 else 0
    decreases hi
  {
    if lo < hi {
      SurvivorsOneLess(lo, hi - 1, failed);
    }
  }

  /** The used rows are the data rows after the first group and the first k / z surviving parities. */
  lemma UsedRowsForm(k: nat, r: nat, size: nat, failed: nat)
    requires size <= k <= failed < k + r && size + 1 <= r
    ensures |UsedRows(k, r, size, failed)| == k
    ensures |Survivors(k, k + r, {failed})| == r - 1 >= size
    ensures UsedRows(k, r, size, failed) == Survivors(size, k, {}) + Survivors(k, k + r, {failed})[..size]
  {
    SurvivorsSplit(size, k, k + r, {failed});
    SurvivorsAll(size, k, {failed});
    SurvivorsAll(size, k, {});
    SurvivorsOneLess(k, k + r, failed);
    assert Survivors(size, k, {failed}) == Survivors(size, k, {});
  }

  // ----- the rows are independent

  /** The evaluation points of a list of parity rows. */
  function Points(k: nat, ids: seq<nat>): (p: seq<byte>)
    requires forall i :: 0 <= i < |ids| ==> ids[i] >= k
    ensures |p| == |ids| && forall i :: 0 <= i < |ids| ==> p[i] == Power2(ids[i] - k + 1)
  {
    seq(|ids|, i requires 0 <= i < |ids| => Power2(ids[i] - k + 1))
  }

  lemma DistinctPoints(k: nat, r: nat, ids: seq<nat>)
    requires r <= 255 && Ascending(ids) && forall i :: 0 <= i < |ids| ==> k <= ids[i] < k + r
    ensures Vandermonde.Distinct(Points(k, ids))
  {
    hide Power2;
    var p := Points(k, ids);
    forall i, j | 0 <= i < j < |p| ensures p[i] != p[j] {
      if p[i] == p[j] {
        Power2Injective(ids[i] - k + 1, ids[j] - k + 1);
      }
    }
  }

  lemma UsedRowsSound(k: nat, r: nat, size: nat, failed: nat)
    requires size <= k <= failed < k + r && size + 1 <= r
    ensures |UsedRows(k, r, size, failed)| == k && Ascending(UsedRows(k, r, size, failed))
    ensures forall i :: i in UsedRows(k, r, size, failed) ==> size <= i < k + r && i != failed
    ensures InRange(UsedRows(k, r, size, failed), k + r)
  {
    hide Survivors;
    UsedRowsForm(k, r, size, failed);
    SurvivorsSound(size, k + r, {failed});
    var all, ids := Survivors(size, k + r, {failed}), UsedRows(k, r, size, failed);
    assert forall i :: i in ids ==> i in all;
    assert forall i :: 0 <= i < |ids| ==> ids[i] in ids;
  }

  lemma UsedRowsKernel(k: nat, r: nat, size: nat, failed: nat, x: Vec)
    requires size <= k <= failed < k + r && size + 1 <= r <= 255 && |x| == k
    requires forall i :: i in UsedRows(k, r, size, failed) ==> Dot(GlobalRow(AzureLRC, k, i), x, k) == 0
    ensures IsZero(x)
  {
    hide Dot, Unit, PowerRow, Power2, Survivors;
    UsedRowsForm(k, r, size, failed);
    SurvivorsSound(size, k, {});
    SurvivorsSound(k, k + r, {failed});
    var parities := Survivors(k, k + r, {failed})[..size];
    forall j | size <= j < k ensures x[j] == 0 {
      assert j in UsedRows(k, r, size, failed);
      DotUnit(k, j, x);
    }
    forall i | 0 <= i < size
      ensures k <= parities[i] < k + r && Dot(PowerRow(k, Power2(parities[i] - k + 1)), x, k) == 0
    {
      assert parities[i] in Survivors(k, k + r, {failed});
      assert parities[i] in parities;
      assert parities[i] in UsedRows(k, r, size, failed);
    }
    DistinctPoints(k, r, parities);
    PowersIndependent(k, size, Points(k, parities), x);
  }

  /** The systematic matrix with the powers of 2, 4, 8, ... below the unit rows. */
  function RsMatrix(k: nat, m: nat): (a: Mat)
    ensures |a| == m && forall i :: 0 <= i < m ==> |a[i]| == k && a[i] == GlobalRow(AzureLRC, k, i)
  {
    seq(m, i requires 0 <= i < m => GlobalRow(AzureLRC, k, i))
  }

  /** The rows that decode_azure_lrc inverts. */
  function UsedMatrix(k: nat, r: nat, size: nat, failed: nat): (a: Mat)
    requires AzureSizes(k, r, size, failed)
    ensures IsMat(a, k, k)
    ensures |UsedRows(k, r, size, failed)| == k && InRange(UsedRows(k, r, size, failed), k + r)
    ensures a == Select(RsMatrix(k, k + r), UsedRows(k, r, size, failed))
  {
    UsedRowsSound(k, r, size, failed);
    Select(RsMatrix(k, k + r), UsedRows(k, r, size, failed))
  }

  /** The matrix that decode_azure_lrc inverts is always invertible. */
  lemma UsedRowsIndependent(k: nat, r: nat, size: nat, failed: nat)
    requires AzureSizes(k, r, size, failed)
    ensures TrivialKernel(UsedMatrix(k, r, size, failed), k)
  {
    hide Dot, GlobalRow, UsedRows;
    var ids, g := UsedRows(k, r, size, failed), RsMatrix(k, k + r);
    UsedRowsSound(k, r, size, failed);
    forall x: Vec | |x| == k && Annihilates(Select(g, ids), x) ensures IsZero(x) {
      forall i | i in ids ensures Dot(GlobalRow(AzureLRC, k, i), x, k) == 0 {
        var t :| 0 <= t < |ids| && ids[t] == i;
        assert Select(g, ids)[t] == GlobalRow(AzureLRC, k, i);
      }
      UsedRowsKernel(k, r, size, failed, x);
    }
  }

  // ----- the coefficients of the lost row

  /** v expresses row g through the rows of a, at x. */
  ghost predicate Expresses(v: Vec, a: Mat, g: Vec, n: nat, x: Vec)
    requires |v| == |g| == |x| == n && IsMat(a, n, n)
  {
    Dot(g, x, n) == Dot(v, Apply(a, x), n)
  }

  ghost predicate Coefficients(v: Vec, a: Mat, g: Vec, n: nat)
    requires |g| == n && IsMat(a, n, n)
  {
    |v| == n && forall x: Vec :: |x| == n ==> Expresses(v, a, g, n, x)
  }

  /** Every rack inverts the matrix on its own; they all arrive at the same coefficients. */
  lemma CoefficientsUnique(v: Vec, w: Vec, a: Mat, inv: Mat, g: Vec, n: nat)
    requires |g| == n && IsMat(a, n, n) && IsMat(inv, n, n) && LeftInverse(a, inv, n)
    requires Coefficients(v, a, g, n) && Coefficients(w, a, g, n)
    ensures v == w
  {
    hide Dot, Apply;
    forall i | 0 <= i < n ensures v[i] == w[i] {
      var e := Unit(n, i);
      var x := Apply(inv, e);
      assert Undoes(a, inv, n, e);
      assert Expresses(v, a, g, n, x) && Expresses(w, a, g, n, x);
      DotUnit(n, i, v);
      DotUnit(n, i, w);
    }
  }

  lemma CombinedCoefficients(a: Mat, inv: Mat, g: Vec, n: nat)
    requires |g| == n && IsMat(a, n, n) && IsMat(inv, n, n) && LeftInverse(inv, a, n)
    ensures Coefficients(Combine(g, inv, n, n), a, g, n)
  {
    hide Dot, Combine, Apply, LeftInverse;
    forall x: Vec | |x| == n ensures Expresses(Combine(g, inv, n, n), a, g, n, x) {
      FactorsDecode(g, inv, a, n, x);
    }
  }

  /** The row map sends each collected row, all of them below `i`, back to its place. */
  ghost predicate RowMap(rows: seq<nat>, m: map<nat, nat>, i: nat) {
    && (forall b :: b in rows ==> b < i)
    && forall t :: 0 <= t < |rows| ==> rows[t] in m && m[rows[t]] == t
  }

  /** One more row, or none. */
  lemma RowMapGrows(rows: seq<nat>, m: map<nat, nat>, i: nat)
    requires RowMap(rows, m, i)
    ensures RowMap(rows, m, i + 1) && RowMap(rows + [i], m[i := |rows|], i + 1)
  {
    assert forall t :: 0 <= t < |rows| ==> rows[t] in rows;
  }

  /** The loop over the rows stops only with all k of them. */
  lemma RowsComplete(k: nat, r: nat, size: nat, failed: nat, i: nat)
    requires AzureSizes(k, r, size, failed) && size <= i <= k + r
    requires |Survivors(size, i, {failed})| == k || (i == k + r && |Survivors(size, i, {failed})| <= k)
    ensures |UsedRows(k, r, size, failed)| == k && Survivors(size, i, {failed}) == UsedRows(k, r, size, failed)
  {
    UsedRowsForm(k, r, size, failed);
    SurvivorsPrefix(size, i, k + r, {failed});
  }

  method UsedRow(k: nat, r: nat, size: nat, failed: nat) returns (usedRow: seq<nat>, idxToRow: map<nat, nat>)
    requires AzureSizes(k, r, size, failed)
    ensures usedRow == UsedRows(k, r, size, failed) && |usedRow| == k
    ensures forall j :: 0 <= j < k ==> usedRow[j] in idxToRow && idxToRow[usedRow[j]] == j
  {
    hide UsedRows;
    usedRow, idxToRow := [], map[];
    var i, j := size, 0;
    while j < k && i < k + r
      invariant size <= i <= k + r && j == |usedRow| <= k
      invariant usedRow == Survivors(size, i, {failed}) && RowMap(usedRow, idxToRow, i)
      decreases k + r - i
    {
      RowMapGrows(usedRow, idxToRow, i);
      if i != failed {
        usedRow := usedRow + [i];
        idxToRow := idxToRow[i := j];
        j := j + 1;
      }
      i := i + 1;
    }
    RowsComplete(k, r, size, failed, i);
  }

  method VectAll(k: nat, r: nat, size: nat, failed: nat, usedRow: seq<nat>) returns (vectAll: Vec)
    requires AzureSizes(k, r, size, failed) && usedRow == UsedRows(k, r, size, failed)
    ensures |vectAll| == k && Coefficients(vectAll, UsedMatrix(k, r, size, failed), GlobalRow(AzureLRC, k, failed), k)
    ensures forall w: Vec ::
      Coefficients(w, UsedMatrix(k, r, size, failed), GlobalRow(AzureLRC, k, failed), k) ==> w == vectAll
  {
    hide Dot, Apply, Combine, TrivialKernel, LeftInverse, Select, UsedRows, GlobalRow, Coefficients;
    ghost var used, g := UsedMatrix(k, r, size, failed), GlobalRow(AzureLRC, k, failed);
    var encodeMatrix := new byte[k + r, k];
    GfGenRsMatrix1(encodeMatrix, k + r, k);
    assert Rows(encodeMatrix) == RsMatrix(k, k + r);
    var tempMatrix := CopyRows(encodeMatrix, usedRow, k);
    var invertMatrix := new byte[k, k];
    UsedRowsIndependent(k, r, size, failed);
    var res := GfInvertMatrix(tempMatrix, invertMatrix, k);
    var row := RowOf(encodeMatrix, failed);
    var dest := new byte[k];
    GfMulVectMatrix(row, invertMatrix, dest, k);
    vectAll := dest[..];
    CombinedCoefficients(used, Rows(invertMatrix), g, k);
    forall w: Vec | Coefficients(w, used, g, k) ensures w == vectAll {
      CoefficientsUnique(w, vectAll, used, Rows(invertMatrix), g, k);
    }
  }

  /** decode_azure_lrc for a global parity, on the blocks at the given places of the used rows. */
  method DecodeAzureLrc(k: nat, r: nat, size: nat, blockIndexes: seq<nat>, blocks: seq<seq<byte>>, len: nat, failed: nat,
      ghost places: seq<nat>)
    returns (res: seq<byte>, ghost v: Vec)
    requires AzureSizes(k, r, size, failed) && |blocks| == |blockIndexes| == |places| && InRange(places, k)
    requires Encodable(|blocks|, 1, len) && forall i :: 0 <= i < |blocks| ==> |blocks[i]| == len
    requires |UsedRows(k, r, size, failed)| == k
    requires forall i :: 0 <= i < |places| ==> UsedRows(k, r, size, failed)[places[i]] == blockIndexes[i]
    ensures |v| == k && Coefficients(v, UsedMatrix(k, r, size, failed), GlobalRow(AzureLRC, k, failed), k)
    ensures forall w: Vec :: Coefficients(w, UsedMatrix(k, r, size, failed), GlobalRow(AzureLRC, k, failed), k) ==> w == v
    ensures |res| == len
    ensures forall p :: 0 <= p < len ==> res[p] == Dot(PickAt(v, places), At(blocks, p), |blocks|)
  {
    hide Dot, Coefficients, UsedRows, UsedMatrix;
    assert forall i :: 0 <= i < |places| ==> places[i] < k;
    var usedRow, idxToRow := UsedRow(k, r, size, failed);
    var vectAll := VectAll(k, r, size, failed, usedRow);
    var decodeVector: seq<byte> := [];
    for i := 0 to |blockIndexes|
      invariant |decodeVector| == i && forall j :: 0 <= j < i ==> decodeVector[j] == vectAll[places[j]]
    {
      ghost var at := places[i];
      assert usedRow[at] == blockIndexes[i];
      decodeVector := decodeVector + [vectAll[idxToRow[blockIndexes[i]]]];
    }
    v := vectAll;
    assert decodeVector == PickAt(v, places);
    var coding := EncodeData(len, |blocks|, [decodeVector], blocks);
    res := coding[0];
  }

  // ----- what each rack reads

  /** The blocks of a group that a rack may send: neither local parities nor the lost block. */
  function Kept(ids: seq<nat>, m: nat, failed: nat): seq<nat> {
    if ids == [] then []
    else
      var rest, last := Kept(ids[..|ids| - 1], m, failed), ids[|ids| - 1];
      if last >= m || last == failed then rest else rest + [last]
  }

  lemma {:induction false} KeptSound(ids: seq<nat>, m: nat, failed: nat)
    requires Ascending(ids)
    ensures forall b :: b in Kept(ids, m, failed) <==> b in ids && b < m && b != failed
    ensures Ascending(Kept(ids, m, failed))
  {
    if ids == [] {
    } else {
      var rest := Kept(ids[..|ids| - 1], m, failed);
      KeptSound(ids[..|ids| - 1], m, failed);
      assert ids == ids[..|ids| - 1] + [ids[|ids| - 1]];
      assert forall i :: 0 <= i < |rest| ==> rest[i] in rest;
    }
  }

  lemma {:induction false} KeptPrefix(ids: seq<nat>, n: nat, m: nat, failed: nat)
    requires n <= |ids|
    ensures Kept(ids[..n], m, failed) <= Kept(ids, m, failed)
  {
    if n == |ids| {
      assert ids[..n] == ids;
    } else {
      KeptPrefix(ids[..|ids| - 1], n, m, failed);
      assert ids[..|ids| - 1][..n] == ids[..n];
      PrefixGrow(Kept(ids[..n], m, failed), Kept(ids[..|ids| - 1], m, failed), ids[|ids| - 1]);
    }
  }

  /** The coordinator's loop over a group's blocks, which stops after `limit` of them. */
  method ChooseBlocks(blockIds: seq<nat>, m: nat, limit: nat, failed: nat) returns (ids: seq<nat>)
    requires limit <= |Kept(blockIds, m, failed)|
    ensures ids == Kept(blockIds, m, failed)[..limit]
  {
    ids := [];
    for j := 0 to |blockIds|
      invariant ids == Kept(blockIds[..j], m, failed) && |ids| <= limit
    {
      KeptPrefix(blockIds, j, m, failed);
      if |ids| == limit {
        return;
      }
      assert blockIds[..j + 1][..j] == blockIds[..j];
      if blockIds[j] >= m || blockIds[j] == failed {
        continue;
      }
      ids := ids + [blockIds[j]];
    }
    assert blockIds[..|blockIds|] == blockIds;
  }

  /** AzureLRC's placement: z groups of `size` data blocks with their local parity, and one of global parities. */
  ghost predicate AzurePlacement(table: seq<int>, k: nat, r: nat, z: nat, size: nat) {
    && size > 0 && k == z * size && k + r <= |table|
    && forall b: nat :: b < k + r ==> table[b] == if b < k then b / size else z
  }

  lemma AzurePlaced(k: nat, r: nat, z: nat, failed: nat)
    requires AzureShape(k, r, z, failed)
    ensures k / z > 0 && AzureSizes(k, r, k / z, failed)
    ensures AzurePlacement(UniAzureTable(false, k, r, z), k, r, z, k / z)
  {
    GroupWithinData(k, z);
    DivExact(1, k, z);
  }

  /** Which blocks, local parities aside, are in group c of the data blocks. */
  lemma DataGroup(table: seq<int>, k: nat, r: nat, z: nat, size: nat, c: nat, lo: nat, b: nat)
    requires AzurePlacement(table, k, r, z, size) && c < z && lo == c * size && b < k + r
    ensures lo + size <= k
    ensures table[b] == c <==> lo <= b < lo + size
  {
    MulMono(c + 1, z, size);
    DivBelow(b, size, c);
    DivBelow(b, size, c + 1);
  }

  lemma GroupStretch(table: seq<int>, k: nat, r: nat, z: nat, size: nat, c: nat, lo: nat)
    requires AzurePlacement(table, k, r, z, size) && c < z && lo == c * size
    ensures lo + size <= k
  {
    MulMono(c + 1, z, size);
  }

  lemma GlobalGroup(table: seq<int>, k: nat, r: nat, z: nat, size: nat, b: nat)
    requires AzurePlacement(table, k, r, z, size) && b < k + r
    ensures table[b] == z <==> k <= b
  {
    DivBelow(b, size, z);
  }

  /** What is kept of placement group c: one group of data blocks, or the surviving global parities. */
  lemma KeptOfGroup(table: seq<int>, k: nat, r: nat, z: nat, size: nat, failed: nat, c: nat, lo: nat)
    requires AzurePlacement(table, k, r, z, size) && k + r <= |table| && k <= failed && c <= z && lo == c * size
    ensures Kept(Members(table, c, |table|), k + r, failed)
         == if c < z then Survivors(lo, lo + size, {}) else Survivors(k, k + r, {failed})
  {
    hide Kept, Members, Survivors, Ascending, AzurePlacement;
    var kept := Kept(Members(table, c, |table|), k + r, failed);
    MembersSound(table, c, |table|);
    KeptSound(Members(table, c, |table|), k + r, failed);
    if c < z {
      SurvivorsSound(lo, lo + size, {});
      GroupStretch(table, k, r, z, size, c, lo);
      forall b: nat | b < k + r ensures table[b] == c <==> lo <= b < lo + size {
        DataGroup(table, k, r, z, size, c, lo, b);
      }
      AscendingUnique(kept, Survivors(lo, lo + size, {}));
    } else {
      SurvivorsSound(k, k + r, {failed});
      forall b: nat | b < k + r ensures table[b] == c <==> k <= b {
        GlobalGroup(table, k, r, z, size, b);
      }
      AscendingUnique(kept, Survivors(k, k + r, {failed}));
    }
  }

  /** Racks 1 to z read exactly the used rows, each its own stretch; lo is where the stretch of rack c ends. */
  lemma RackReads(table: seq<int>, k: nat, r: nat, z: nat, size: nat, failed: nat, c: nat, lo: nat)
    requires AzurePlacement(table, k, r, z, size) && AzureSizes(k, r, size, failed)
    requires 1 <= c <= z && lo == c * size
    ensures size <= lo <= k && |UsedRows(k, r, size, failed)| == k
    ensures var kept := Kept(Members(table, c, |table|), k + r, failed);
      |kept| >= size && kept[..size] == UsedRows(k, r, size, failed)[lo - size..lo]
  {
    hide Kept, Members, Survivors, UsedRows;
    KeptOfGroup(table, k, r, z, size, failed, c, lo);
    UsedRowsForm(k, r, size, failed);
    SurvivorsAll(size, k, {});
    MulMono(1, c, size);
    MulMono(c, z, size);
    if c < z {
      DataGroup(table, k, r, z, size, c, lo, 0);
      SurvivorsAll(lo, lo + size, {});
    }
  }

  lemma {:induction false} FlattenIntervals(parts: seq<seq<nat>>, size: nat)
    requires forall c :: 0 <= c < |parts| ==> parts[c] == Interval(c * size, size)
    ensures Flatten(parts) == Upto(|parts| * size)
  {
    if parts == [] {
    } else {
      var n := |parts| - 1;
      FlattenIntervals(parts[..n], size);
      assert n * size + size == |parts| * size;
      assert Flatten(parts) == Upto(n * size) + Interval(n * size, size);
    }
  }

  /** XOR does not depend on the order in which the racks' results arrive. */
  lemma ArrivalOrder(s: Vec, order: seq<nat>)
    requires multiset(order) == multiset(Upto(|s|)) && InRange(order, |s|)
    ensures XorAll(PickAt(s, order)) == XorAll(s)
  {
    hide XorAll, SumOver, PickAt, Upto;
    XorAllIsSum(s, order);
    SumOverPermuted(order, Upto(|s|), s);
    XorAllIsSum(s, Upto(|s|));
    assert PickAt(s, Upto(|s|)) == s;
  }

  // ----- the whole repair

  /** The bytes at one position of the blocks that the used rows stand for. */
  function UsedWord(stored: seq<seq<byte>>, k: nat, r: nat, size: nat, failed: nat, p: nat): (y: Vec)
    requires AzureSizes(k, r, size, failed) && k + r <= |stored|
    requires forall i :: 0 <= i < |stored| ==> p < |stored[i]|
    requires |UsedRows(k, r, size, failed)| == k && InRange(UsedRows(k, r, size, failed), k + r)
    ensures |y| == k && forall j :: 0 <= j < k ==> y[j] == stored[UsedRows(k, r, size, failed)[j]][p]
  {
    PickAt(At(stored, p), UsedRows(k, r, size, failed))
  }

  /** Byte p of what a rack sends: its stretch of the used rows, combined with the coefficients v. */
  ghost predicate Share(buf: seq<byte>, v: Vec, stored: seq<seq<byte>>, k: nat, r: nat, size: nat, failed: nat,
      lo: nat, p: nat)
    requires AzureSizes(k, r, size, failed) && k + r <= |stored| && p < |buf|
    requires forall i :: 0 <= i < |stored| ==> p < |stored[i]|
    requires |UsedRows(k, r, size, failed)| == k && InRange(UsedRows(k, r, size, failed), k + r)
  {
    && |v| == k && InRange(Interval(lo, size), k)
    && buf[p] == PartValue(v, UsedWord(stored, k, r, size, failed, p), Interval(lo, size))
  }

  /** What the rack of group c sends: its share of the combination of the used rows. */
  method RackResult(table: seq<int>, k: nat, r: nat, z: nat, size: nat, storage: map<nat, seq<byte>>, failed: nat,
      c: nat, len: nat, ghost lo: nat, ghost stored: seq<seq<byte>>)
    returns (buf: seq<byte>, ghost v: Vec)
    requires AzurePlacement(table, k, r, z, size) && AzureSizes(k, r, size, failed) && 1 <= c <= z
    requires lo + size == c * size && lo + size <= k && size > 0
    requires k + r <= |stored| && forall i :: 0 <= i < |stored| ==> |stored[i]| == len
    requires Surviving(storage, stored, failed)
    requires |UsedRows(k, r, size, failed)| == k && InRange(UsedRows(k, r, size, failed), k + r)
    ensures |v| == k && Coefficients(v, UsedMatrix(k, r, size, failed), GlobalRow(AzureLRC, k, failed), k)
    ensures forall w: Vec :: Coefficients(w, UsedMatrix(k, r, size, failed), GlobalRow(AzureLRC, k, failed), k) ==> w == v
    ensures |buf| == len
    ensures forall p :: 0 <= p < len ==> Share(buf, v, stored, k, r, size, failed, lo, p)
  {
    hide Kept, Members, UsedRows, UsedMatrix, Coefficients, Dot, AzurePlacement;
    ghost var used, places := UsedRows(k, r, size, failed), Interval(lo, size);
    RackReads(table, k, r, z, size, failed, c, lo + size);
    UsedRowsSound(k, r, size, failed);
    var ids := ChooseBlocks(Members(table, c, |table|), k + r, size, failed);
    assert forall t :: 0 <= t < size ==> used[places[t]] == ids[t] && ids[t] in used;
    var blocks := ReadBlocks(storage, ids);
    buf, v := DecodeAzureLrc(k, r, size, ids, blocks, len, failed, places);
    forall p | 0 <= p < len ensures Share(buf, v, stored, k, r, size, failed, lo, p) {
      assert At(blocks, p) == PickAt(UsedWord(stored, k, r, size, failed, p), places);
    }
  }

  /** The racks' shares add up to the lost byte. */
  lemma SharesSum(v: Vec, k: nat, r: nat, z: nat, size: nat, failed: nat, x: Vec, y: Vec, sent: Vec)
    requires AzureSizes(k, r, size, failed) && k == z * size && |x| == |y| == k && |sent| == z && |v| == k
    requires y == Apply(UsedMatrix(k, r, size, failed), x)
    requires Coefficients(v, UsedMatrix(k, r, size, failed), GlobalRow(AzureLRC, k, failed), k)
    requires forall c :: 0 <= c < z ==> 0 <= c * size && InRange(Interval(c * size, size), k)
    requires forall c :: 0 <= c < z ==> sent[c] == PartValue(v, y, Interval(c * size, size))
    ensures XorAll(sent) == Dot(GlobalRow(AzureLRC, k, failed), x, k)
  {
    hide XorAll, PartValue, Dot, GlobalRow, UsedMatrix;
    var parts := seq(z, c requires 0 <= c < z => Interval(c * size, size));
    FlattenIntervals(parts, size);
    PartialDots(v, y, parts, sent);
    assert Expresses(v, UsedMatrix(k, r, size, failed), GlobalRow(AzureLRC, k, failed), k, x);
  }

  /** The stored words satisfy the code: each used block is its row applied to the data. */
  lemma UsedWordEncoded(stored: seq<seq<byte>>, data: seq<seq<byte>>, len: nat, k: nat, r: nat, z: nat, size: nat,
      failed: nat, p: nat)
    requires AzureShape(k, r, z, failed) && AzureSizes(k, r, size, failed) && |data| == k && p < len
    requires Stores(stored, Generator(AzureLRC, k, r, z), data, len)
    requires |UsedRows(k, r, size, failed)| == k && InRange(UsedRows(k, r, size, failed), k + r)
    ensures |stored| == k + r + z && forall i :: 0 <= i < |stored| ==> |stored[i]| == len
    ensures forall j :: 0 <= j < k ==> p < |data[j]|
    ensures UsedWord(stored, k, r, size, failed, p) == Apply(UsedMatrix(k, r, size, failed), At(data, p))
    ensures stored[failed][p] == Dot(GlobalRow(AzureLRC, k, failed), At(data, p), k)
  {
    hide Dot, GlobalRow, UsedRows;
    StoredWord(AzureLRC, k, r, z, stored, data, len, p);
    var used, x := UsedRows(k, r, size, failed), At(data, p);
    forall i: nat | i < k + r ensures stored[i][p] == Dot(GlobalRow(AzureLRC, k, i), x, k) {
      assert At(stored, p)[i] == Codeword(AzureLRC, k, r, z, x)[i];
    }
    var y := UsedWord(stored, k, r, size, failed, p);
    forall j | 0 <= j < k ensures y[j] == Apply(UsedMatrix(k, r, size, failed), x)[j] {
      assert UsedMatrix(k, r, size, failed)[j] == GlobalRow(AzureLRC, k, used[j]);
    }
  }

  /** The results of racks 1 to z, all with the same coefficients. */
  method RackResults(table: seq<int>, k: nat, r: nat, z: nat, size: nat, storage: map<nat, seq<byte>>, failed: nat,
      len: nat, ghost stored: seq<seq<byte>>)
    returns (bufs: seq<seq<byte>>, ghost v: Vec)
    requires AzurePlacement(table, k, r, z, size) && AzureSizes(k, r, size, failed) && z > 0
    requires k + r <= |stored| && forall i :: 0 <= i < |stored| ==> |stored[i]| == len
    requires Surviving(storage, stored, failed)
    requires |UsedRows(k, r, size, failed)| == k && InRange(UsedRows(k, r, size, failed), k + r)
    ensures |v| == k && Coefficients(v, UsedMatrix(k, r, size, failed), GlobalRow(AzureLRC, k, failed), k)
    ensures |bufs| == z && forall i :: 0 <= i < z ==> |bufs[i]| == len
    ensures forall i, p :: 0 <= i < z && 0 <= p < len ==> 0 <= i * size && Share(bufs[i], v, stored, k, r, size, failed, i * size, p)
  {
    hide UsedRows, UsedMatrix, Coefficients, AzurePlacement, GlobalRow, Share;
    bufs, v := [], [];
    for c := 0 to z
      invariant |bufs| == c && forall i :: 0 <= i < c ==> |bufs[i]| == len
      invariant c > 0 ==> |v| == k && Coefficients(v, UsedMatrix(k, r, size, failed), GlobalRow(AzureLRC, k, failed), k)
      invariant forall i, p :: 0 <= i < c && 0 <= p < len ==>
        0 <= i * size && Share(bufs[i], v, stored, k, r, size, failed, i * size, p)
    {
      GroupEnd(table, k, r, z, size, c);
      ghost var w;
      var buf;
      buf, w := RackResult(table, k, r, z, size, storage, failed, c + 1, len, c * size, stored);
      assert c > 0 ==> v == w;
      v := w;
      bufs := bufs + [buf];
    }
  }

  lemma GroupEnd(table: seq<int>, k: nat, r: nat, z: nat, size: nat, c: nat)
    requires AzurePlacement(table, k, r, z, size) && c < z
    ensures 0 <= c * size && c * size + size == (c + 1) * size <= k && size > 0
  {
    MulMono(c + 1, z, size);
  }

  ghost predicate Shares(bufs: seq<seq<byte>>, v: Vec, stored: seq<seq<byte>>, k: nat, r: nat, size: nat, failed: nat,
      p: nat)
    requires AzureSizes(k, r, size, failed) && k + r <= |stored|
    requires forall i :: 0 <= i < |stored| ==> p < |stored[i]|
  {
    && |UsedRows(k, r, size, failed)| == k && InRange(UsedRows(k, r, size, failed), k + r)
    && |v| == k && Coefficients(v, UsedMatrix(k, r, size, failed), GlobalRow(AzureLRC, k, failed), k)
    && forall i :: 0 <= i < |bufs| ==> p < |bufs[i]| && 0 <= i * size && Share(bufs[i], v, stored, k, r, size, failed, i * size, p)
  }

  /** Whatever the order of arrival, the shares add up to the lost byte. */
  lemma LostByte(bufs: seq<seq<byte>>, v: Vec, stored: seq<seq<byte>>, data: seq<seq<byte>>, k: nat, r: nat, z: nat,
      size: nat, failed: nat, len: nat, p: nat)
    requires AzureShape(k, r, z, failed) && AzureSizes(k, r, size, failed)
    requires |data| == k == |bufs| * size && Stores(stored, Generator(AzureLRC, k, r, z), data, len) && p < len
    requires |stored| == k + r + z && forall i :: 0 <= i < |stored| ==> |stored[i]| == len
    requires Shares(bufs, v, stored, k, r, size, failed, p)
    ensures XorAll(At(bufs, p)) == stored[failed][p]
  {
    hide UsedRows, UsedMatrix, Coefficients, Dot, Stores, Generator, Shape, PartValue, GlobalRow, XorAll, UsedWord;
    UsedWordEncoded(stored, data, len, k, r, z, size, failed, p);
    SharesSum(v, k, r, |bufs|, size, failed, At(data, p), UsedWord(stored, k, r, size, failed, p), At(bufs, p));
  }

  /** Repair of a global parity: racks 1 to z decode their shares, the destination XORs them in the order in which
      they arrive. */
  method RecoverAzureGlobal(k: nat, r: nat, z: nat, storage: map<nat, seq<byte>>, failed: nat, len: nat,
      arrival: seq<nat>, ghost stored: seq<seq<byte>>, ghost data: seq<seq<byte>>)
    returns (res: seq<byte>)
    requires AzureShape(k, r, z, failed) && z >= 2
    requires |data| == k && Stores(stored, Generator(AzureLRC, k, r, z), data, len)
    requires Surviving(storage, stored, failed)
    requires InRange(arrival, z) && multiset(arrival) == multiset(Upto(z))
    ensures res == stored[failed]
  {
    hide UsedRows, UsedMatrix, Coefficients, Stores, Generator, GlobalRow, XorAll, Share;
    AzurePlaced(k, r, z, failed);
    var size, table := k / z, UniAzureTable(false, k, r, z);
    assert k == z * size by { DivExact(1, k, z); }
    StoredLength(AzureLRC, k, r, z, stored, data, len);
    UsedRowsSound(k, r, size, failed);
    hide AzurePlacement, Shape, Surviving;
    ghost var v;
    var bufs;
    bufs, v := RackResults(table, k, r, z, size, storage, failed, len, stored);
    var arrived := seq(|arrival|, i requires 0 <= i < |arrival| => bufs[arrival[i]]);
    res := XorRacks(arrived, len);
    forall p | 0 <= p < len ensures res[p] == stored[failed][p] {
      assert At(arrived, p) == PickAt(At(bufs, p), arrival);
      ArrivalOrder(At(bufs, p), arrival);
      LostByte(bufs, v, stored, data, k, r, z, size, failed, len, p);
    }
  }
}
