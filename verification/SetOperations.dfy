/** set and sub_set, from the coordinator's plans to what every cluster is sent. */
module SetOperations {
  import opened Arithmetic
  import opened Field
  import opened DecodePlanner
  import opened Generators
  import opened Encoder
  import opened ProxyRecovery
  import opened Placement
  import opened NodePlacement
  import opened ConfigCapacity
  import opened GroupClasses
  import opened SetCounts
  import opened SetWrites
  import opened SetShipment
  import opened SubsetCounts
  import opened StripeEncoder

  /** The coordinator's reply: one plan per group in kept, and a part of the announced size for each. */
  ghost predicate Announced(plans: seq<SetPlan>, parts: seq<seq<byte>>, t: seq<int>, k: nat, b: nat, blockSize: nat,
      kept: seq<nat>)
    requires b <= k <= |t|
  {
    && PlansFor(plans, t, k, b, blockSize, kept) && |parts| == |plans|
    && forall x :: 0 <= x < |parts| ==> |parts[x]| == plans[x].appendSize
  }

  function PlannedBlocks(plans: seq<SetPlan>): (blocks: seq<seq<nat>>)
    ensures |blocks| == |plans| && forall x :: 0 <= x < |plans| ==> blocks[x] == plans[x].blocks
  {
    seq(|plans|, x requires 0 <= x < |plans| => plans[x].blocks)
  }

  /** The parts as whole blocks, as the client's buffer held them and as they are sent. */
  ghost predicate Delivered(plans: seq<SetPlan>, parts: seq<seq<byte>>, was: seq<seq<seq<byte>>>, sent: seq<seq<seq<byte>>>,
      data: seq<seq<byte>>, stored: seq<seq<byte>>, code: Code, k: nat, r: nat, z: nat, blockSize: nat)
    requires |parts| == |plans| && Shape(code, k, r, z) && |data| <= k
  {
    && |was| == |plans|
    && (forall x :: 0 <= x < |plans| ==> CutInto(was[x], parts[x], |plans[x].blocks|, blockSize))
    && HoldsData(was, PlannedBlocks(plans), data)
    && Stores(stored, Generator(code, k, r, z), Padded(data, k, blockSize), blockSize)
    && Carries(sent, PlannedBlocks(plans), stored)
  }

  /** The client's numbers, cut to the first b data blocks and picked for the groups in kept, fit the plans. */
  lemma CutsFit(plans: seq<SetPlan>, parts: seq<seq<byte>>, d: seq<nat>, g: seq<nat>, l: seq<nat>, t: seq<int>, k: nat,
      r: nat, b: nat, blockSize: nat, kept: seq<nat>)
    requires b <= k <= k + r <= |t| && NumsFor(d, g, l, t, k, r, b, kept) && Announced(plans, parts, t, k, b, blockSize, kept)
    ensures BlocksOf(PlannedBlocks(plans), t, k, b, kept)
    ensures |parts| == |kept| && forall x :: 0 <= x < |parts| ==> (d[x] + g[x] + l[x]) * blockSize == |parts[x]|
  {
    hide InClass, PartBlocks;
    forall x | 0 <= x < |kept| ensures (d[x] + g[x] + l[x]) * blockSize == |parts[x]| {
      PartSplit(t, k, r, b, kept[x]);
    }
  }

  /** Encodes the client's buffer in place and sends each cluster its part. */
  method EncodeAndSend(code: Code, k: nat, r: nat, z: nat, blockSize: nat, blockNum: nat, whole: bool, p: Pointers,
      ghost d: seq<nat>, ghost g: seq<nat>, ghost l: seq<nat>, ghost parts: seq<seq<byte>>, ghost plans: seq<SetPlan>,
      ghost kept: seq<nat>)
    returns (sent: seq<seq<seq<byte>>>, ghost data: seq<seq<byte>>, ghost stored: seq<seq<byte>>)
    requires SetShape(code, k, r, z) && Shape(code, k, r, z) && z > 0 && blockNum <= k && (whole ==> blockNum == k)
    requires Encodable(blockNum, r + z, blockSize)
    requires Announced(plans, parts, SetTable(code, k, r, z), k, blockNum, blockSize, kept)
    requires NumsFor(d, g, l, SetTable(code, k, r, z), k, r, blockNum, kept)
    requires KeptGroups(SetTable(code, k, r, z), k, blockNum, SetGroups(code, k, r, z), kept)
    requires |parts| <= |d| == |g| == |l| && CutBy(p, parts, blockSize, d, g, l, |parts|)
    ensures |data| == blockNum && |parts| == |plans|
    ensures Delivered(plans, parts, p.slices, sent, data, stored, code, k, r, z, blockSize)
  {
    hide *;
    ghost var t, blocks := SetTable(code, k, r, z), PlannedBlocks(plans);
    CutsFit(plans, parts, d, g, l, t, k, r, blockNum, blockSize, kept);
    LengthsOf(d, g, l, t, k, r, blockNum, kept, plans, parts, blockSize);
    SetRising(code, k, r, z);
    RisingAll(t, k, r, z, SetGroups(code, k, r, z));
    PointersAgree(p, parts, blockSize, d, g, l, blocks, t, k, r, blockNum, SetGroups(code, k, r, z), kept);
    KeptAscends(t, k, blockNum, SetGroups(code, k, r, z), kept);
    PlannedOnce(blocks, t, k, blockNum, kept);
    PointersCount(p, blocks, k, r, z, blockNum);
    sent, stored, data := EncodeInPlace(code, k, r, z, blockSize, whole, p, blocks);
    WasCut(p, parts, blockSize, d, g, l, plans, t, k, r, blockNum, kept);
    IsDelivered(plans, parts, p.slices, sent, data, stored, code, k, r, z, blockSize);
  }

  lemma IsDelivered(plans: seq<SetPlan>, parts: seq<seq<byte>>, was: seq<seq<seq<byte>>>, sent: seq<seq<seq<byte>>>,
      data: seq<seq<byte>>, stored: seq<seq<byte>>, code: Code, k: nat, r: nat, z: nat, blockSize: nat)
    requires |parts| == |plans| && Shape(code, k, r, z) && |data| <= k && |was| == |plans|
    requires forall x :: 0 <= x < |plans| ==> CutInto(was[x], parts[x], |plans[x].blocks|, blockSize)
    requires HoldsData(was, PlannedBlocks(plans), data) && Carries(sent, PlannedBlocks(plans), stored)
    requires Stores(stored, Generator(code, k, r, z), Padded(data, k, blockSize), blockSize)
    ensures Delivered(plans, parts, was, sent, data, stored, code, k, r, z, blockSize)
  {
    hide Shape, Generator, Stores, CutInto, HoldsData, Carries;
  }

  lemma LengthsOf(d: seq<nat>, g: seq<nat>, l: seq<nat>, t: seq<int>, k: nat, r: nat, b: nat, kept: seq<nat>,
      plans: seq<SetPlan>, parts: seq<seq<byte>>, blockSize: nat)
    requires b <= k <= k + r <= |t| && NumsFor(d, g, l, t, k, r, b, kept) && Announced(plans, parts, t, k, b, blockSize, kept)
    ensures |d| == |g| == |l| == |kept| == |parts| == |plans|
  {
  }

  lemma RisingAll(t: seq<int>, k: nat, r: nat, z: nat, groups: nat)
    requires |t| == k + r + z && Rising(t, 0, k, groups) && Rising(t, k, k + r, groups) && Rising(t, k + r, k + r + z, groups)
    ensures AllRising(t, k, r, groups)
  {
  }

  lemma KeptAscends(t: seq<int>, k: nat, b: nat, groups: nat, kept: seq<nat>)
    requires b <= k <= |t| && KeptGroups(t, k, b, groups, kept)
    ensures Ascending(kept)
  {
  }

  lemma PointersCount(p: Pointers, blocks: seq<seq<nat>>, k: nat, r: nat, z: nat, b: nat)
    requires PointToBlocks(p, blocks, k, r, z, b)
    ensures |p.data| == b
  {
  }

  lemma WasCut(p: Pointers, parts: seq<seq<byte>>, blockSize: nat, d: seq<nat>, g: seq<nat>, l: seq<nat>,
      plans: seq<SetPlan>, t: seq<int>, k: nat, r: nat, b: nat, kept: seq<nat>)
    requires b <= k <= k + r <= |t| && NumsFor(d, g, l, t, k, r, b, kept) && |plans| == |parts| == |kept|
    requires |parts| <= |d| == |g| == |l| && CutBy(p, parts, blockSize, d, g, l, |parts|)
    requires BlocksOf(PlannedBlocks(plans), t, k, b, kept)
    ensures |p.slices| == |plans|
    ensures forall x :: 0 <= x < |plans| ==> CutInto(p.slices[x], parts[x], |plans[x].blocks|, blockSize)
  {
    hide CutInto, PartBlocks, InClass, Slots;
    PartsLaidOut(PlannedBlocks(plans), d, g, l, t, k, r, b, kept);
  }

  // ----- set

  method GetTables(code: Code, k: nat, r: nat, z: nat) returns (d: seq<nat>, g: seq<nat>, l: seq<nat>)
    requires SetShape(code, k, r, z) && z > 0
    ensures ClientTables(d, g, l, code, k, r, z)
  {
    hide ClientNums, ClientGroups, SetShape;
    d := GetDataBlockNumPerGroup(code, k, r, z);
    g := GetGlobalParityBlockNumPerGroup(code, k, r, z);
    l := GetLocalParityBlockNumPerGroup(code, k, r, z);
  }

  lemma AllKept(t: seq<int>, k: nat, b: nat, groups: nat)
    requires b <= k <= |t|
    ensures KeptGroups(t, k, b, groups, AllGroups(groups))
  {
    var all := AllGroups(groups);
    forall c: nat | c < groups ensures c in all {
      assert all[c] == c;
    }
  }

  /** If the tables do not fit, the client has no entry for some part, or cuts it into another number of blocks. */
  lemma CutMustFail(d: seq<nat>, g: seq<nat>, l: seq<nat>, code: Code, k: nat, r: nat, z: nat, blockSize: nat,
      plans: seq<SetPlan>, parts: seq<seq<byte>>)
    requires SetShape(code, k, r, z) && z > 0 && !TablesFit(code, k, r, z) && blockSize > 0
    requires ClientTables(d, g, l, code, k, r, z)
    requires Announced(plans, parts, SetTable(code, k, r, z), k, k, blockSize, AllGroups(SetGroups(code, k, r, z)))
    ensures |parts| > |d| || exists x :: 0 <= x < |parts| && (d[x] + g[x] + l[x]) * blockSize != |parts[x]|
  {
    hide ClientNums, ClientGroups, SetGroups, SetTable, InClass, PartBlocks, TablesFit, SetShape;
    var c := NumsDisagree(code, k, r, z);
    PartSplit(SetTable(code, k, r, z), k, r, k, c);
    if c < |d| {
      assert (d[c], g[c], l[c]) == ClientNums(code, k, r, z, c);
      assert |parts[c]| == Total(PlacedNums(code, k, r, z, c)) * blockSize;
      MulDiffers(d[c] + g[c] + l[c], Total(PlacedNums(code, k, r, z, c)), blockSize);
    }
  }

  lemma MulDiffers(a: nat, b: nat, c: nat)
    requires a != b && c > 0
    ensures a * c != b * c
  {
    if a < b {
      MulMono(a + 1, b, c);
    } else {
      MulMono(b + 1, a, c);
    }
  }

  lemma CutFits(d: seq<nat>, g: seq<nat>, l: seq<nat>, code: Code, k: nat, r: nat, z: nat, blockSize: nat,
      plans: seq<SetPlan>, parts: seq<seq<byte>>)
    requires SetShape(code, k, r, z) && z > 0 && TablesFit(code, k, r, z) && ClientTables(d, g, l, code, k, r, z)
    requires Announced(plans, parts, SetTable(code, k, r, z), k, k, blockSize, AllGroups(SetGroups(code, k, r, z)))
    ensures |parts| <= |d| && forall x :: 0 <= x < |parts| ==> (d[x] + g[x] + l[x]) * blockSize == |parts[x]|
  {
    hide *;
    var t, all := SetTable(code, k, r, z), AllGroups(SetGroups(code, k, r, z));
    TablesAreNums(d, g, l, code, k, r, z);
    CutsFit(plans, parts, d, g, l, t, k, r, k, blockSize, all);
    LengthsOf(d, g, l, t, k, r, k, all, plans, parts, blockSize);
  }

  /** Writes a whole stripe. It works exactly if the client's tables are those of the placement; a failed cut of the
      client's buffer is ok == false. */
  method Set(code: Code, k: nat, r: nat, z: nat, blockSize: nat, parts: seq<seq<byte>>, ghost plans: seq<SetPlan>)
    returns (ok: bool, sent: seq<seq<seq<byte>>>, ghost was: seq<seq<seq<byte>>>, ghost data: seq<seq<byte>>,
      ghost stored: seq<seq<byte>>)
    requires SetShape(code, k, r, z) && Shape(code, k, r, z) && z > 0 && blockSize > 0
    requires Announced(plans, parts, SetTable(code, k, r, z), k, k, blockSize, AllGroups(SetGroups(code, k, r, z)))
    ensures ok <==> TablesFit(code, k, r, z)
    ensures ok ==> |data| == k && |parts| == |plans|
    ensures ok ==> Delivered(plans, parts, was, sent, data, stored, code, k, r, z, blockSize)
  {
    hide *;
    var d, g, l := GetTables(code, k, r, z);
    TablesShape(d, g, l, code, k, r, z);
    ShapeSizes(code, k, r, z);
    EncodableData(k, r + z, blockSize);
    sent, was, data, stored := [], [], [], [];
    var split := SplitForSet(parts, blockSize, d, g, l);
    ok := split.Some?;
    if !ok {
      if TablesFit(code, k, r, z) {
        CutFits(d, g, l, code, k, r, z, blockSize, plans, parts);
      }
      return;
    }
    if !TablesFit(code, k, r, z) {
      CutMustFail(d, g, l, code, k, r, z, blockSize, plans, parts);
    }
    TablesAreNums(d, g, l, code, k, r, z);
    AllKept(SetTable(code, k, r, z), k, k, SetGroups(code, k, r, z));
    was := split.value.slices;
    sent, data, stored := EncodeAndSend(code, k, r, z, blockSize, k, true, split.value, d, g, l, parts, plans,
      AllGroups(SetGroups(code, k, r, z)));
  }

  /** A validated OptimalLRC configuration for which no whole stripe can be written: 4 data blocks, 1 global and 2 local
      parities. Whatever the client holds, the part with the first local parity has 3 blocks, and the client expects 2. */
  lemma OptimalSetFails(d: seq<nat>, g: seq<nat>, l: seq<nat>, blockSize: nat, plans: seq<SetPlan>, parts: seq<seq<byte>>)
    requires ClientTables(d, g, l, OptimalLRC, 4, 1, 2) && blockSize > 0
    requires Announced(plans, parts, SetTable(OptimalLRC, 4, 1, 2), 4, 4, blockSize, AllGroups(SetGroups(OptimalLRC, 4, 1, 2)))
    ensures Validated(OptimalLRC, 4, 1, 2, 3, 4) && SetShape(OptimalLRC, 4, 1, 2) && !TablesFit(OptimalLRC, 4, 1, 2)
    ensures |parts| > |d| || exists x :: 0 <= x < |parts| && (d[x] + g[x] + l[x]) * blockSize != |parts[x]|
  {
    OptimalExample();
    hide ClientTables, Announced, SetTable, SetGroups;
    CutMustFail(d, g, l, OptimalLRC, 4, 1, 2, blockSize, plans, parts);
  }

  lemma OptimalExample()
    ensures Validated(OptimalLRC, 4, 1, 2, 3, 4) && SetShape(OptimalLRC, 4, 1, 2) && !TablesFit(OptimalLRC, 4, 1, 2)
  {
  }

  lemma EncodableData(sources: nat, rows: nat, len: nat)
    requires sources > 0
    ensures Encodable(sources, rows, len)
  {
  }

  lemma TablesShape(d: seq<nat>, g: seq<nat>, l: seq<nat>, code: Code, k: nat, r: nat, z: nat)
    requires z > 0 && ClientTables(d, g, l, code, k, r, z)
    ensures |d| == |g| == |l| == ClientGroups(code, k, r, z)
  {
  }

  // ----- sub_set

  /** The client's tables for the first blockNum data blocks, without the groups that get nothing. */
  method SubTables(code: Code, k: nat, r: nat, z: nat, blockNum: nat)
    returns (d: seq<nat>, g: seq<nat>, l: seq<nat>, ghost cut: seq<nat>, ghost all: seq<nat>, ghost globals: seq<nat>,
      ghost locals: seq<nat>)
    requires SetShape(code, k, r, z) && z > 0
    ensures ClientCut(cut, all, globals, locals, code, k, r, z, blockNum) && |cut| == |globals| == |locals|
    ensures var u := Useful(cut, globals, locals, 0, |cut|);
      d == Picked(cut, u) && g == Picked(globals, u) && l == Picked(locals, u)
  {
    hide *;
    var data, globalNums, localNums := GetTables(code, k, r, z);
    all, globals, locals := data, globalNums, localNums;
    TablesShape(all, globals, locals, code, k, r, z);
    data := Truncate(data, blockNum);
    cut := data;
    IsClientCut(cut, all, globals, locals, code, k, r, z, blockNum);
    d, g, l := RemoveCommonZeros(data, globalNums, localNums);
  }

  lemma IsClientCut(cut: seq<nat>, d: seq<nat>, g: seq<nat>, l: seq<nat>, code: Code, k: nat, r: nat, z: nat, b: nat)
    requires z > 0 && ClientTables(d, g, l, code, k, r, z) && CappedTo(cut, d, b)
    ensures ClientCut(cut, d, g, l, code, k, r, z, b) && |cut| == |g| == |l|
  {
  }

  /** If the two sides differ, so do the parts and their cuts. */
  lemma SubsetMustFail(cut: seq<nat>, globals: seq<nat>, locals: seq<nat>, code: Code, k: nat, r: nat, z: nat, b: nat,
      blockSize: nat, d: seq<nat>, g: seq<nat>, l: seq<nat>, plans: seq<SetPlan>, parts: seq<seq<byte>>)
    returns (x: nat)
    requires SetShape(code, k, r, z) && b <= k && blockSize > 0 && |cut| == |globals| == |locals|
    requires SubsetDiffers(cut, globals, locals, code, k, r, z, b)
    requires var u := Useful(cut, globals, locals, 0, |cut|);
      d == Picked(cut, u) && g == Picked(globals, u) && l == Picked(locals, u)
    requires Announced(plans, parts, SetTable(code, k, r, z), k, b, blockSize, KeptOf(code, k, r, z, b))
    ensures |d| == |g| == |l|
    ensures |parts| <= |d| ==> x < |parts| && (d[x] + g[x] + l[x]) * blockSize != |parts[x]|
  {
    hide *;
    var t, kept := SetTable(code, k, r, z), KeptOf(code, k, r, z, b);
    AnnouncedLength(plans, parts, t, k, b, blockSize, kept);
    x := 0;
    if |parts| <= |d| {
      x := DifferentPart(cut, globals, locals, code, k, r, z, b, d, g, l);
      AnnouncedSize(plans, parts, t, k, b, blockSize, kept, x);
      PartDiffers(d[x] + g[x] + l[x], |PartBlocks(t, k, b, kept[x])|, blockSize, |parts[x]|);
    }
  }

  lemma DifferentPart(cut: seq<nat>, globals: seq<nat>, locals: seq<nat>, code: Code, k: nat, r: nat, z: nat, b: nat,
      d: seq<nat>, g: seq<nat>, l: seq<nat>)
    returns (x: nat)
    requires SetShape(code, k, r, z) && b <= k && |cut| == |globals| == |locals|
    requires SubsetDiffers(cut, globals, locals, code, k, r, z, b)
    requires var u := Useful(cut, globals, locals, 0, |cut|);
      d == Picked(cut, u) && g == Picked(globals, u) && l == Picked(locals, u)
    requires |KeptOf(code, k, r, z, b)| <= |d|
    ensures x < |KeptOf(code, k, r, z, b)| && x < |d| == |g| == |l|
    ensures d[x] + g[x] + l[x] != |PartBlocks(SetTable(code, k, r, z), k, b, KeptOf(code, k, r, z, b)[x])|
  {
    hide SetShape, SetTable, KeptOf, Useful, PartBlocks;
    var u, kept := Useful(cut, globals, locals, 0, |cut|), KeptOf(code, k, r, z, b);
    x :| 0 <= x < |kept| && cut[u[x]] + globals[u[x]] + locals[u[x]] != |PartBlocks(SetTable(code, k, r, z), k, b, kept[x])|;
  }

  lemma AnnouncedLength(plans: seq<SetPlan>, parts: seq<seq<byte>>, t: seq<int>, k: nat, b: nat, blockSize: nat,
      kept: seq<nat>)
    requires b <= k <= |t| && Announced(plans, parts, t, k, b, blockSize, kept)
    ensures |parts| == |kept|
  {
  }

  lemma AnnouncedSize(plans: seq<SetPlan>, parts: seq<seq<byte>>, t: seq<int>, k: nat, b: nat, blockSize: nat, kept: seq<nat>,
      x: nat)
    requires b <= k <= |t| && Announced(plans, parts, t, k, b, blockSize, kept) && x < |kept|
    ensures |parts| == |kept| && |parts[x]| == |PartBlocks(t, k, b, kept[x])| * blockSize
  {
    hide PartBlocks;
  }

  lemma PartDiffers(a: nat, n: nat, blockSize: nat, size: nat)
    requires a != n && blockSize > 0 && size == n * blockSize
    ensures a * blockSize != size
  {
    MulDiffers(a, n, blockSize);
  }

  lemma SubsetNums(cut: seq<nat>, globals: seq<nat>, locals: seq<nat>, code: Code, k: nat, r: nat, z: nat, b: nat,
      d: seq<nat>, g: seq<nat>, l: seq<nat>)
    requires SetShape(code, k, r, z) && b <= k && |cut| == |globals| == |locals|
    requires SubsetAgrees(cut, globals, locals, code, k, r, z, b)
    requires var u := Useful(cut, globals, locals, 0, |cut|);
      d == Picked(cut, u) && g == Picked(globals, u) && l == Picked(locals, u)
    ensures NumsFor(d, g, l, SetTable(code, k, r, z), k, r, b, KeptOf(code, k, r, z, b))
  {
  }

  /** Writes the first blocks of a stripe; to the clusters it is the stripe whose other data blocks are zero. A failed cut of
      the client's buffer is ok == false. */
  method SubSet(code: Code, k: nat, r: nat, z: nat, blockSize: nat, blockNum: nat, parts: seq<seq<byte>>,
      ghost plans: seq<SetPlan>)
    returns (ok: bool, sent: seq<seq<seq<byte>>>, ghost was: seq<seq<seq<byte>>>, ghost data: seq<seq<byte>>,
      ghost stored: seq<seq<byte>>)
    requires SetShape(code, k, r, z) && Shape(code, k, r, z) && z > 0 && blockSize > 0 && 0 < blockNum <= k
    requires Announced(plans, parts, SetTable(code, k, r, z), k, blockNum, blockSize, KeptOf(code, k, r, z, blockNum))
    ensures ok <==> SubsetFits(code, k, r, z, blockNum)
    ensures ok ==> |data| == blockNum && |parts| == |plans|
    ensures ok ==> Delivered(plans, parts, was, sent, data, stored, code, k, r, z, blockSize)
  {
    hide *;
    ghost var t, kept := SetTable(code, k, r, z), KeptOf(code, k, r, z, blockNum);
    ghost var cut, all, globals, locals;
    var d, g, l;
    d, g, l, cut, all, globals, locals := SubTables(code, k, r, z, blockNum);
    SubsetAgreement(cut, all, globals, locals, code, k, r, z, blockNum);
    sent, was, data, stored := [], [], [], [];
    var split := SplitForSet(parts, blockSize, d, g, l);
    ok := split.Some?;
    if SubsetFits(code, k, r, z, blockNum) {
      SubsetNums(cut, globals, locals, code, k, r, z, blockNum, d, g, l);
      CutsFit(plans, parts, d, g, l, t, k, r, blockNum, blockSize, kept);
      LengthsOf(d, g, l, t, k, r, blockNum, kept, plans, parts, blockSize);
    } else {
      var x := SubsetMustFail(cut, globals, locals, code, k, r, z, blockNum, blockSize, d, g, l, plans, parts);
    }
    if !ok {
      return;
    }
    KeptGroupsOf(code, k, r, z, blockNum);
    EncodableData(blockNum, r + z, blockSize);
    was := split.value.slices;
    sent, data, stored := EncodeAndSend(code, k, r, z, blockSize, blockNum, false, split.value, d, g, l, parts, plans, kept);
  }

  lemma KeptGroupsOf(code: Code, k: nat, r: nat, z: nat, b: nat)
    requires SetShape(code, k, r, z) && z > 0 && b <= k
    ensures KeptGroups(SetTable(code, k, r, z), k, b, SetGroups(code, k, r, z), KeptOf(code, k, r, z, b))
  {
    hide SetTable, SetGroups, KeptGroups;
    NonemptyKept(SetTable(code, k, r, z), k, b, SetGroups(code, k, r, z));
  }

  /** Two validated configurations for which the first blocks cannot all be written: with OptimalLRC 4/1/2 not a single one,
      and with UniformLRC 3/1/2 not the third one. */
  lemma SubsetsThatFail()
    ensures Validated(OptimalLRC, 4, 1, 2, 3, 4) && SetShape(OptimalLRC, 4, 1, 2)
    ensures forall b :: 0 < b <= 4 ==> !SubsetFits(OptimalLRC, 4, 1, 2, b)
    ensures Validated(UniformLRC, 3, 1, 2, 3, 3) && SetShape(UniformLRC, 3, 1, 2)
    ensures forall b :: 0 < b <= 3 ==> (SubsetFits(UniformLRC, 3, 1, 2, b) <==> b < 3)
    ensures !TablesFit(UniformLRC, 3, 1, 2)
  {
  }

  /** The plans start from what the placement recorded. */
  lemma PlacementListsGroups(p: Placed, code: Code, k: nat, r: nat, z: nat, stripeId: nat, nodesOf: seq<set<nat>>)
    requires SetShape(code, k, r, z) && z > 0 && |nodesOf| > 0
    requires PlacedUpTo(p, SetTable(code, k, r, z), stripeId, nodesOf, k + r + z)
    ensures GroupsListed(SetTable(code, k, r, z), SetGroups(code, k, r, z), p.groupToBlocks)
  {
    hide Members, SetTable, SetGroups;
    SetConsecutive(code, k, r, z);
    var t := SetTable(code, k, r, z);
    forall c: nat | c < SetGroups(code, k, r, z) ensures c in p.groupToBlocks {
      assert HasGroup(t, c);
      var i :| 0 <= i < |t| && t[i] == c;
      assert t[..k + r + z] == t;
    }
  }
}
