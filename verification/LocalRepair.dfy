/** Single-block repair from a local group: XOR for UniLRC and for AzureLRC's data and local parities,
    weighted sums for UniformLRC, and the same split over racks. */
module LocalRepair {
  import opened Arithmetic
  import opened Field
  import opened Tables
  import opened LinearAlgebra
  import opened Cauchy
  import opened Generators
  import opened Encoder
  import opened Aggregation
  import opened DecodePlanner
  import opened NodePlacement
  import opened ConfigCapacity
  import opened ProxyRecovery
  import opened StripeEncoder
  import opened LocalGroups

  // ----- choosing the blocks to read

  /** For UniLRC and AzureLRC the recovery groups are the placement groups, so a group's blocks are in one rack. */
  lemma RepairInPlacementGroup(code: Code, k: nat, r: nat, z: nat)
    requires LocalShape(code, k, r, z) && (code.UniLRC? || code.AzureLRC?)
    ensures k / z > 0 && (code.UniLRC? ==> r / z > 0)
    ensures RepairTable(code, k, r, z) == UniAzureTable(code.UniLRC?, k, r, z)
  {
    UniGroupSize(code, k, r, z);
    var a, b := RepairTable(code, k, r, z), UniAzureTable(code.UniLRC?, k, r, z);
    assert forall i :: 0 <= i < k + r + z ==> a[i] == b[i];
  }

  /** The recovery groups of a UniLRC block: always just one. */
  method GetRecoveryGroupIds(k: nat, r: nat, z: nat, failed: nat) returns (ids: seq<nat>)
    requires LocalShape(UniLRC, k, r, z) && failed < k + r + z
    ensures ids == [RepairTable(UniLRC, k, r, z)[failed]] && ids[0] < z
  {
    UniGroupSize(UniLRC, k, r, z);
    RepairGroupBelow(UniLRC, k, r, z, failed);
    if k <= failed < k + r {
      ids := [(failed - k) / (r / z)];
    } else if failed >= k + r {
      ids := [failed - k - r];
    } else {
      ids := [failed / (k / z)];
    }
  }

  lemma RepairGroupBelow(code: Code, k: nat, r: nat, z: nat, i: nat)
    requires LocalShape(code, k, r, z) && i < k + r + z
    ensures RepairTable(code, k, r, z)[i] <= z
    ensures !(code.AzureLRC? && k <= i < k + r) ==> RepairTable(code, k, r, z)[i] < z
  {
    if i < k {
      LocalRowInRange(code, k, r, z, i);
    } else if i < k + r {
      if code.UniLRC? {
        DivExact(1, r, z);
        DivBelow(i - k, r / z, z);
      } else if code.UniformLRC? {
        DivExact(1, k + r, z);
        DivBelow(i, (k + r) / z, z);
      }
    }
  }

  /** The blocks of the group but the failed one, in order. */
  method SourcesOf(blockIds: seq<nat>, failed: nat) returns (sources: seq<nat>)
    requires Ascending(blockIds) && failed in blockIds
    ensures exists i :: 0 <= i < |blockIds| && blockIds[i] == failed && sources == Without(blockIds, i)
  {
    ghost var at: nat :| at < |blockIds| && blockIds[at] == failed;
    sources := [];
    for i := 0 to |blockIds|
      invariant sources == if i <= at then blockIds[..i] else blockIds[..at] + blockIds[at + 1..i]
    {
      if blockIds[i] == failed {
        assert i == at;
        continue;
      }
      sources := sources + [blockIds[i]];
    }
    assert sources == Without(blockIds, at);
  }

  // ----- decoding

  /** All bytes of the stripe's blocks at one position, as seen in storage. */
  lemma StoredWord(code: Code, k: nat, r: nat, z: nat, stored: seq<seq<byte>>, data: seq<seq<byte>>, len: nat, p: nat)
    requires Shape(code, k, r, z) && |data| == k && p < len
    requires Stores(stored, Generator(code, k, r, z), data, len)
    ensures |stored| == k + r + z && forall i :: 0 <= i < |stored| ==> |stored[i]| == len
    ensures At(stored, p) == Codeword(code, k, r, z, At(data, p))
  {
    hide Dot, GeneratorRow;
    var x := At(data, p);
    forall i | 0 <= i < k + r + z ensures stored[i][p] == Dot(GeneratorRow(code, k, r, z, i), x, k) {
      assert Encoded(stored[i], Generator(code, k, r, z)[i], data, len);
    }
  }

  /** Contract of xor_gen_avx: out becomes the XOR of the sources. Fewer than two sources are refused, and then out stays
      as it is. */
  method XorGen(sources: seq<seq<byte>>, out: array<byte>) returns (code: int)
    requires forall j :: 0 <= j < |sources| ==> |sources[j]| == out.Length
    modifies out
    ensures code == if |sources| < 2 then 1 else 0
    ensures |sources| < 2 ==> out[..] == old(out[..])
    ensures |sources| >= 2 ==> forall p :: 0 <= p < out.Length ==> out[p] == XorAll(At(sources, p))
  {
    hide XorAll;
    if |sources| < 2 {
      return 1;
    }
    var sums := XorSlice(sources, out.Length, 0);
    assert forall p :: 0 <= p < out.Length ==> PayloadBytes(sources, out.Length, 0, p) == At(sources, p);
    forall p | 0 <= p < out.Length {
      out[p] := sums[..][p];
    }
    code := 0;
  }

  /** decode_unilrc, and decode_azure_lrc for all but the global parities: the code of xor_gen_avx is not looked at. */
  method DecodeUnilrc(blocks: seq<seq<byte>>, len: nat) returns (res: seq<byte>)
    requires forall j :: 0 <= j < |blocks| ==> |blocks[j]| == len
    ensures |res| == len
    ensures forall p :: 0 <= p < len ==> res[p] == if |blocks| < 2 then 0 else XorAll(At(blocks, p))
  {
    hide XorAll;
    var out := new byte[len](_ => 0);
    var _ := XorGen(blocks, out);
    res := out[..];
  }

  /** What the destination makes of its own buffer and those from other racks, if there are any. */
  method XorRacks(bufs: seq<seq<byte>>, len: nat) returns (res: seq<byte>)
    requires |bufs| > 0 && forall j :: 0 <= j < |bufs| ==> |bufs[j]| == len
    ensures |res| == len && forall p :: 0 <= p < len ==> res[p] == XorAll(At(bufs, p))
  {
    hide XorAll;
    if |bufs| == 1 {
      forall p | 0 <= p < len ensures bufs[0][p] == XorAll(At(bufs, p)) {
        assert At(bufs, p) == [bufs[0][p]];
        XorOfOne(bufs[0][p]);
      }
      return bufs[0];
    }
    var out := new byte[len](_ => 0);
    var _ := XorGen(bufs, out);
    res := out[..];
  }

  lemma XorOfOne(b: byte)
    ensures XorAll([b]) == b
  {
    assert [b][..0] == [];
  }

  lemma {:induction false} XorAllIsSum(c: Vec, ids: seq<nat>)
    requires InRange(ids, |c|)
    ensures XorAll(PickAt(c, ids)) == SumOver(ids, c)
  {
    hide Add;
    if ids == [] {
    } else {
      var n := |ids| - 1;
      XorAllIsSum(c, ids[..n]);
      assert PickAt(c, ids)[..n] == PickAt(c, ids[..n]);
    }
  }

  /** Without weights the group sum is a plain XOR (UniLRC and AzureLRC). */
  lemma PlainWord(code: Code, k: nat, r: nat, z: nat, x: Vec)
    requires Shape(code, k, r, z) && |x| == k && (code.UniLRC? || code.AzureLRC?)
    ensures WeightedWord(code, k, r, z, x) == Codeword(code, k, r, z, x)
  {
    hide Mul, Dot, GeneratorRow;
    var w, c := WeightedWord(code, k, r, z, x), Codeword(code, k, r, z, x);
    forall i | 0 <= i < |c| ensures w[i] == c[i] {
      MulOne(c[i]);
    }
  }

  /** The blocks of local group c. */
  function GroupBlocks(code: Code, k: nat, r: nat, z: nat, c: nat): (ids: seq<nat>)
    requires LocalShape(code, k, r, z)
  {
    Members(RepairTable(code, k, r, z), c, k + r + z)
  }

  lemma GroupBlocksSound(code: Code, k: nat, r: nat, z: nat, c: nat)
    requires LocalShape(code, k, r, z)
    ensures InRange(GroupBlocks(code, k, r, z, c), k + r + z) && Ascending(GroupBlocks(code, k, r, z, c))
    ensures forall i: nat :: i < k + r + z && RepairTable(code, k, r, z)[i] == c ==> i in GroupBlocks(code, k, r, z, c)
  {
    hide RepairTable, Members;
    MembersSound(RepairTable(code, k, r, z), c, k + r + z);
    MembersBelow(RepairTable(code, k, r, z), c, k + r + z, k + r + z);
  }

  /** Any member of a local group, times its weight, is the sum of the weighted other members. */
  lemma GroupRepair(code: Code, k: nat, r: nat, z: nat, x: Vec, c: nat, at: nat)
    requires LocalShape(code, k, r, z) && |x| == k && c < z && at < |GroupBlocks(code, k, r, z, c)|
    ensures var ids := GroupBlocks(code, k, r, z, c);
      && InRange(ids, k + r + z) && InRange(Without(ids, at), k + r + z)
      && SumOver(Without(ids, at), WeightedWord(code, k, r, z, x)) == WeightedWord(code, k, r, z, x)[ids[at]]
  {
    hide RepairTable, Members, SumOver, WeightedWord, Without;
    LocalGroupZero(code, k, r, z, x, c);
    MissingMember(GroupBlocks(code, k, r, z, c), at, WeightedWord(code, k, r, z, x));
  }

  /** What is left in storage when one block is lost. */
  ghost predicate Surviving(storage: map<nat, seq<byte>>, stored: seq<seq<byte>>, failed: nat) {
    forall i :: 0 <= i < |stored| && i != failed ==> i in storage && storage[i] == stored[i]
  }

  method ReadBlocks(storage: map<nat, seq<byte>>, ids: seq<nat>) returns (blocks: seq<seq<byte>>)
    requires forall i :: 0 <= i < |ids| ==> ids[i] in storage
    ensures |blocks| == |ids| && forall i :: 0 <= i < |ids| ==> blocks[i] == storage[ids[i]]
  {
    blocks := [];
    for i := 0 to |ids|
      invariant |blocks| == i && forall j :: 0 <= j < i ==> blocks[j] == storage[ids[j]]
    {
      blocks := blocks + [storage[ids[i]]];
    }
  }

  /** Single-block repair inside one rack: any UniLRC block, and AzureLRC data and local parity blocks. */
  method RecoverByXor(code: Code, k: nat, r: nat, z: nat, storage: map<nat, seq<byte>>, failed: nat, len: nat,
      ghost stored: seq<seq<byte>>, ghost data: seq<seq<byte>>)
    returns (res: seq<byte>)
    requires LocalShape(code, k, r, z) && (code.UniLRC? || (code.AzureLRC? && (failed < k || failed >= k + r)))
    requires |data| == k && Stores(stored, Generator(code, k, r, z), data, len)
    requires failed < k + r + z && Surviving(storage, stored, failed)
    ensures res == if code.AzureLRC? && k == z then Constant<byte>(len, 0) else stored[failed]
  {
    hide RepairTable, Members, SumOver, WeightedWord, Without, XorAll, Stores, Shape, Generator;
    var c := RepairTable(code, k, r, z)[failed];
    RepairGroupBelow(code, k, r, z, failed);
    SourcesEnough(code, k, r, z, c);
    var ids := GroupBlocks(code, k, r, z, c);
    GroupBlocksSound(code, k, r, z, c);
    var sources := SourcesOf(ids, failed);
    ghost var at: nat :| at < |ids| && ids[at] == failed && sources == Without(ids, at);
    SourcesSurvive(ids, at, k + r + z);
    StoredLength(code, k, r, z, stored, data, len);
    var blocks := ReadBlocks(storage, sources);
    res := DecodeUnilrc(blocks, len);
    assert |blocks| == |ids| - 1 by {
      WithoutLength(ids, at);
    }
    if |blocks| >= 2 {
      forall p | 0 <= p < len ensures res[p] == stored[failed][p] {
        XorRepairByte(code, k, r, z, stored, data, len, p, c, at, blocks);
      }
    }
  }

  lemma WithoutLength(ids: seq<nat>, at: nat)
    requires at < |ids|
    ensures |Without(ids, at)| == |ids| - 1
  {
  }

  /** A block has one other member in its group exactly if AzureLRC has a group for each data block, and otherwise more. */
  lemma SourcesEnough(code: Code, k: nat, r: nat, z: nat, c: nat)
    requires LocalShape(code, k, r, z) && (code.UniLRC? || code.AzureLRC?) && c < z
    ensures |GroupBlocks(code, k, r, z, c)| == k / z + 1 + (if code.UniLRC? then r / z else 0)
    ensures |GroupBlocks(code, k, r, z, c)| - 1 < 2 <==> code.AzureLRC? && k == z
  {
    hide RepairTable, UniAzureTable, Members, Count;
    RepairInPlacementGroup(code, k, r, z);
    var g := RepairTable(code, k, r, z);
    MembersCount(g, c, k + r + z);
    assert g[..k + r + z] == g;
    UniAzureCount(code.UniLRC?, k, r, z, c);
    DivExact(1, k, z);
  }

  /** The blocks of the stripe with the given data. */
  function StripeOfData(gen: Mat, data: seq<seq<byte>>, len: nat): (stored: seq<seq<byte>>)
    requires IsMat(gen, |gen|, |data|) && forall j :: 0 <= j < |data| ==> |data[j]| == len
    ensures Stores(stored, gen, data, len)
  {
    hide Dot;
    seq(|gen|, i requires 0 <= i < |gen| => seq(len, p requires 0 <= p < len => Dot(gen[i], At(data, p), |data|)))
  }

  /** AzureLRC with a group for each data block passes validateConfig, for example with 2 data blocks, 2 global and 2 local
      parities on 4 clusters of 3 nodes. A data block that is not all zero is repaired to zeros there. */
  lemma SingleSourceLoss(failed: nat, content: seq<byte>)
    returns (data: seq<seq<byte>>, stored: seq<seq<byte>>)
    requires failed < 2 && content != Constant<byte>(|content|, 0)
    ensures Validated(AzureLRC, 2, 2, 2, 3, 4) && LocalShape(AzureLRC, 2, 2, 2)
    ensures |data| == 2 && Stores(stored, Generator(AzureLRC, 2, 2, 2), data, |content|)
    ensures stored[failed] == content != Constant<byte>(|content|, 0)
    ensures |GroupBlocks(AzureLRC, 2, 2, 2, RepairTable(AzureLRC, 2, 2, 2)[failed])| - 1 == 1
  {
    hide GeneratorRow, Dot, Unit, GroupBlocks, Encoded;
    data := [content, content];
    stored := StripeOfData(Generator(AzureLRC, 2, 2, 2), data, |content|);
    SourcesEnough(AzureLRC, 2, 2, 2, failed);
    DataRow(AzureLRC, 2, 2, 2, failed);
    UnitEncodes(data, 2, |content|, failed);
    EncodedUnique(stored[failed], content, Unit(2, failed), data, |content|);
  }

  lemma XorRepairByte(code: Code, k: nat, r: nat, z: nat, stored: seq<seq<byte>>, data: seq<seq<byte>>, len: nat,
      p: nat, c: nat, at: nat, blocks: seq<seq<byte>>)
    requires LocalShape(code, k, r, z) && (code.UniLRC? || code.AzureLRC?) && c < z
    requires |data| == k && Stores(stored, Generator(code, k, r, z), data, len) && p < len
    requires at < |GroupBlocks(code, k, r, z, c)| && GroupBlocks(code, k, r, z, c)[at] < |stored|
    requires var sources := Without(GroupBlocks(code, k, r, z, c), at);
      && |blocks| == |sources| && InRange(sources, |stored|)
      && forall i :: 0 <= i < |blocks| ==> blocks[i] == stored[sources[i]]
    requires forall i :: 0 <= i < |stored| ==> |stored[i]| == len
    ensures XorAll(At(blocks, p)) == stored[GroupBlocks(code, k, r, z, c)[at]][p]
  {
    var sources := Without(GroupBlocks(code, k, r, z, c), at);
    assert forall j :: 0 <= j < k ==> p < |data[j]|;
    hide RepairTable, Members, SumOver, WeightedWord, Without, XorAll, Stores, Generator, Codeword;
    StoredWord(code, k, r, z, stored, data, len, p);
    var x, word := At(data, p), At(stored, p);
    GroupRepair(code, k, r, z, x, c, at);
    PlainWord(code, k, r, z, x);
    assert At(blocks, p) == PickAt(word, sources);
    XorAllIsSum(word, sources);
  }

  lemma StoredLength(code: Code, k: nat, r: nat, z: nat, stored: seq<seq<byte>>, data: seq<seq<byte>>, len: nat)
    requires Shape(code, k, r, z) && |data| == k && Stores(stored, Generator(code, k, r, z), data, len)
    ensures |stored| == k + r + z && forall i :: 0 <= i < |stored| ==> |stored[i]| == len
  {
  }

  lemma SourcesSurvive(ids: seq<nat>, at: nat, n: nat)
    requires at < |ids| && Ascending(ids) && InRange(ids, n)
    ensures InRange(Without(ids, at), n)
    ensures forall i :: 0 <= i < |Without(ids, at)| ==> Without(ids, at)[i] != ids[at]
  {
  }

  // ----- UniformLRC

  /** The factors of decode_uniform_lrc for the blocks in the list. */
  function UniformFactors(k: nat, r: nat, ids: seq<nat>, failed: nat): (f: Vec)
    ensures |f| == |ids|
    ensures forall i :: 0 <= i < |ids| ==> f[i] == Mul(Weight(UniformLRC, k, r, ids[i]), UniformScale(k, r, failed))
  {
    seq(|ids|, i requires 0 <= i < |ids| => Mul(Weight(UniformLRC, k, r, ids[i]), UniformScale(k, r, failed)))
  }

  function UniformScale(k: nat, r: nat, failed: nat): byte {
    if failed < k then GfInv(LocalFactor(UniformLRC, k, r, failed)) else 1
  }

  method DecodeUniformLrc(k: nat, r: nat, blockIndexes: seq<nat>, blocks: seq<seq<byte>>, len: nat, failed: nat)
    returns (res: seq<byte>)
    requires |blocks| == |blockIndexes| && forall j :: 0 <= j < |blocks| ==> |blocks[j]| == len
    requires Encodable(|blocks|, 1, len)
    ensures |res| == len
    ensures forall p :: 0 <= p < len ==>
      res[p] == Dot(UniformFactors(k, r, blockIndexes, failed), At(blocks, p), |blocks|)
  {
    hide Mul, Add, Dot, GfMul, GfInv, LocalFactor;
    var decodeVector: seq<byte> := [];
    for i := 0 to |blockIndexes|
      invariant |decodeVector| == i
      invariant forall j :: 0 <= j < i ==> decodeVector[j] == Weight(UniformLRC, k, r, blockIndexes[j])
    {
      if blockIndexes[i] < k {
        decodeVector := decodeVector + [LocalFactor(UniformLRC, k, r, blockIndexes[i])];
      } else {
        decodeVector := decodeVector + [1];
      }
    }
    if failed < k {
      var factor := GfInv(LocalFactor(UniformLRC, k, r, failed));
      decodeVector := seq(|decodeVector|, i requires 0 <= i < |decodeVector| => GfMul(decodeVector[i], factor));
    } else {
      forall i | 0 <= i < |blockIndexes| ensures decodeVector[i] == Mul(decodeVector[i], 1) {
        MulOne(decodeVector[i]);
      }
    }
    assert decodeVector == UniformFactors(k, r, blockIndexes, failed);
    var coding := EncodeData(len, |blocks|, [decodeVector], blocks);
    res := coding[0];
  }

  /** The decoded byte is the weighted sum over the list, scaled for the failed block. */
  lemma UniformDecodes(k: nat, r: nat, z: nat, x: Vec, ids: seq<nat>, failed: nat)
    requires Shape(UniformLRC, k, r, z) && |x| == k && InRange(ids, k + r + z)
    ensures Dot(UniformFactors(k, r, ids, failed), PickAt(Codeword(UniformLRC, k, r, z, x), ids), |ids|)
         == Mul(SumOver(ids, WeightedWord(UniformLRC, k, r, z, x)), UniformScale(k, r, failed))
  {
    hide Mul, Add, Dot, SumOver, UniformScale, Weight, GeneratorRow, Shape;
    var w, c := Weights(UniformLRC, k, r, k + r + z), Codeword(UniformLRC, k, r, z, x);
    var f := UniformFactors(k, r, ids, failed);
    var scaled := Scaled(PickAt(w, ids), UniformScale(k, r, failed));
    assert f == scaled;
    DotScaled(PickAt(w, ids), UniformScale(k, r, failed), PickAt(c, ids), |ids|);
    DotPicked(w, c, ids, |ids|);
    assert ids[..|ids|] == ids;
  }

  /** The scale undoes the weight of the failed block, unless its factor is 0. That happens only to a data block
      whose number agrees with k + r in the low byte, so never while k + r <= 255. */
  lemma UniformScaleCorrect(k: nat, r: nat, failed: nat, b: byte)
    ensures Mul(Mul(Weight(UniformLRC, k, r, failed), b), UniformScale(k, r, failed))
         == if failed < k && Byte(failed) == Byte(k + r) then 0 else b
    ensures k + r <= 255 && failed < k ==> Byte(failed) != Byte(k + r)
  {
    hide Mul, Add, GfInv, Byte;
    var w := Weight(UniformLRC, k, r, failed);
    AddCancel(Byte(failed), Byte(k + r));
    if failed >= k {
      MulOne(b);
    } else if Byte(failed) == Byte(k + r) {
      MulZero(b);
      MulZero(UniformScale(k, r, failed));
    } else {
      InvNonzero(Add(Byte(failed), Byte(k + r)));
      InvNonzero(w);
      MulComm(w, b);
      MulAssoc(b, w, GfInv(w));
      MulOne(b);
    }
    if k + r <= 255 && failed < k {
      ByteInjective(failed, k + r);
    }
  }

  lemma UniformRepairWord(k: nat, r: nat, z: nat, x: Vec, failed: nat, at: nat)
    requires LocalShape(UniformLRC, k, r, z) && |x| == k && failed < k + r + z
    requires var ids := GroupBlocks(UniformLRC, k, r, z, RepairTable(UniformLRC, k, r, z)[failed]);
      at < |ids| && ids[at] == failed
    ensures var rest := Without(GroupBlocks(UniformLRC, k, r, z, RepairTable(UniformLRC, k, r, z)[failed]), at);
      && InRange(rest, k + r + z)
      && Mul(SumOver(rest, WeightedWord(UniformLRC, k, r, z, x)), UniformScale(k, r, failed))
         == if failed < k && Byte(failed) == Byte(k + r) then 0 else Codeword(UniformLRC, k, r, z, x)[failed]
  {
    hide Mul, Add, Dot, RepairTable, SumOver, UniformScale, Weight, GeneratorRow, Members, Without, Byte;
    var c := RepairTable(UniformLRC, k, r, z)[failed];
    RepairGroupBelow(UniformLRC, k, r, z, failed);
    GroupRepair(UniformLRC, k, r, z, x, c, at);
    UniformScaleCorrect(k, r, failed, Codeword(UniformLRC, k, r, z, x)[failed]);
  }

  /** What a rack that holds one part of the group sends: decode_uniform_lrc of its blocks. */
  function UniformPart(k: nat, r: nat, z: nat, x: Vec, part: seq<nat>, failed: nat): byte
    requires Shape(UniformLRC, k, r, z) && |x| == k && InRange(part, k + r + z)
  {
    Dot(UniformFactors(k, r, part, failed), PickAt(Codeword(UniformLRC, k, r, z, x), part), |part|)
  }

  /** Repair of a UniformLRC block with the other members of its local group spread over any racks: each rack
      decodes its part and the destination XORs the results. The block comes back for every content exactly
      if its factor is not 0. */
  lemma UniformRepair(k: nat, r: nat, z: nat, x: Vec, failed: nat, at: nat, parts: seq<seq<nat>>, sent: Vec)
    requires LocalShape(UniformLRC, k, r, z) && |x| == k && failed < k + r + z
    requires var ids := GroupBlocks(UniformLRC, k, r, z, RepairTable(UniformLRC, k, r, z)[failed]);
      at < |ids| && ids[at] == failed && Partition(parts, Without(ids, at))
    requires |sent| == |parts|
    requires forall p :: 0 <= p < |parts| ==> InRange(parts[p], k + r + z)
    requires forall p :: 0 <= p < |parts| ==> sent[p] == UniformPart(k, r, z, x, parts[p], failed)
    ensures XorAll(sent) == if failed < k && Byte(failed) == Byte(k + r) then 0 else Codeword(UniformLRC, k, r, z, x)[failed]
  {
    hide Mul, Add, Dot, RepairTable, SumOver, UniformScale, UniformFactors, WeightedWord, Codeword,
      Members, Without, Byte, XorAll, Partition, PartSums;
    var v, s := WeightedWord(UniformLRC, k, r, z, x), UniformScale(k, r, failed);
    var rest := Without(GroupBlocks(UniformLRC, k, r, z, RepairTable(UniformLRC, k, r, z)[failed]), at);
    UniformRepairWord(k, r, z, x, failed, at);
    PartitionSum(parts, rest, v);
    forall p | 0 <= p < |parts| ensures sent[p] == Scaled(PartSums(parts, v), s)[p] {
      UniformDecodes(k, r, z, x, parts[p], failed);
    }
    assert sent == Scaled(PartSums(parts, v), s);
    XorScaled(PartSums(parts, v), s);
  }

  lemma {:induction false} XorScaled(v: Vec, s: byte)
    ensures XorAll(Scaled(v, s)) == Mul(XorAll(v), s)
  {
    hide Mul, Add;
    if v == [] {
      MulZero(s);
    } else {
      var n := |v| - 1;
      XorScaled(v[..n], s);
      assert Scaled(v, s)[..n] == Scaled(v[..n], s);
      MulAdd(XorAll(v[..n]), v[n], s);
    }
  }

  /** The racks that hold other members of the group decode their parts of the stored blocks, and the destination XORs
      what they send. */
  method RecoverUniform(k: nat, r: nat, z: nat, storage: map<nat, seq<byte>>, failed: nat, len: nat, racks: seq<seq<nat>>,
      ghost at: nat, ghost stored: seq<seq<byte>>, ghost data: seq<seq<byte>>)
    returns (res: seq<byte>)
    requires LocalShape(UniformLRC, k, r, z) && Shape(UniformLRC, k, r, z) && failed < k + r + z
    requires |data| == k && Stores(stored, Generator(UniformLRC, k, r, z), data, len) && Surviving(storage, stored, failed)
    requires var ids := GroupBlocks(UniformLRC, k, r, z, RepairTable(UniformLRC, k, r, z)[failed]);
      at < |ids| && ids[at] == failed && Partition(racks, Without(ids, at))
    requires forall i :: 0 <= i < |racks| ==> racks[i] != []
    ensures |res| == len
    ensures forall p :: 0 <= p < len ==>
      res[p] == if failed < k && Byte(failed) == Byte(k + r) then 0 else stored[failed][p]
  {
    hide Stores, Generator, GroupBlocks, RepairTable, Partition, Surviving, Without, Byte, Shape, LocalShape, XorAll, UniformFactors;
    StoredLength(UniformLRC, k, r, z, stored, data, len);
    RacksSurvive(k, r, z, failed, at, racks);
    SomeRack(k, r, z, failed, at, racks);
    var bufs: seq<seq<byte>> := [];
    for i := 0 to |racks|
      invariant |bufs| == i
      invariant forall j :: 0 <= j < i ==> |bufs[j]| == len && UniformShare(bufs[j], k, r, racks[j], stored, failed, len)
    {
      StillThere(storage, stored, failed, racks[i]);
      var blocks := ReadBlocks(storage, racks[i]);
      var buf := DecodeUniformLrc(k, r, racks[i], blocks, len, failed);
      assert blocks == Fetch(stored, racks[i]);
      bufs := bufs + [buf];
    }
    res := XorRacks(bufs, len);
    forall p | 0 <= p < len ensures res[p] == if failed < k && Byte(failed) == Byte(k + r) then 0 else stored[failed][p] {
      UniformRepairByte(k, r, z, failed, at, racks, stored, data, len, p, bufs);
    }
  }

  /** A rack's buffer: its part of the stored blocks, decoded. */
  ghost predicate UniformShare(buf: seq<byte>, k: nat, r: nat, part: seq<nat>, stored: seq<seq<byte>>, failed: nat, len: nat)
    requires forall i :: 0 <= i < |stored| ==> |stored[i]| == len
  {
    && |buf| == len && InRange(part, |stored|)
    && forall p :: 0 <= p < len ==> buf[p] == Dot(UniformFactors(k, r, part, failed), At(Fetch(stored, part), p), |part|)
  }

  lemma RacksSurvive(k: nat, r: nat, z: nat, failed: nat, at: nat, racks: seq<seq<nat>>)
    requires LocalShape(UniformLRC, k, r, z) && failed < k + r + z
    requires var ids := GroupBlocks(UniformLRC, k, r, z, RepairTable(UniformLRC, k, r, z)[failed]);
      at < |ids| && ids[at] == failed && Partition(racks, Without(ids, at))
    ensures forall i :: 0 <= i < |racks| ==> InRange(racks[i], k + r + z) && failed !in racks[i]
  {
    hide RepairTable, Members, Flatten, Shape, LocalShape;
    var ids := GroupBlocks(UniformLRC, k, r, z, RepairTable(UniformLRC, k, r, z)[failed]);
    GroupBlocksSound(UniformLRC, k, r, z, RepairTable(UniformLRC, k, r, z)[failed]);
    SourcesSurvive(ids, at, k + r + z);
    var rest := Without(ids, at);
    PartsInRange(racks, rest, k + r + z);
    forall i, j | 0 <= i < |racks| && 0 <= j < |racks[i]| ensures racks[i][j] != failed {
      InFlatten(racks, i, j);
      assert racks[i][j] in multiset(rest);
    }
  }

  /** A group has a data block or a global parity besides its local parity, so some rack has a part of it. */
  lemma SomeRack(k: nat, r: nat, z: nat, failed: nat, at: nat, racks: seq<seq<nat>>)
    requires LocalShape(UniformLRC, k, r, z) && failed < k + r + z
    requires var ids := GroupBlocks(UniformLRC, k, r, z, RepairTable(UniformLRC, k, r, z)[failed]);
      at < |ids| && ids[at] == failed && Partition(racks, Without(ids, at))
    ensures |racks| > 0
  {
    hide LocalShape, RepairTable, GroupBlocks, Without;
    var c := RepairTable(UniformLRC, k, r, z)[failed];
    RepairGroupBelow(UniformLRC, k, r, z, failed);
    GroupOfTwo(k, r, z, c);
    var rest := Without(GroupBlocks(UniformLRC, k, r, z, c), at);
    WithoutLength(GroupBlocks(UniformLRC, k, r, z, c), at);
    assert |multiset(rest)| == |rest|;
  }

  lemma GroupOfTwo(k: nat, r: nat, z: nat, c: nat)
    requires LocalShape(UniformLRC, k, r, z) && c < z
    ensures |GroupBlocks(UniformLRC, k, r, z, c)| >= 2
  {
    hide GroupBlocks;
    var ids, size := GroupBlocks(UniformLRC, k, r, z, c), (k + r) / z;
    GroupBlocksSound(UniformLRC, k, r, z, c);
    FirstOfGroup(k, r, z, c, size);
    var i, j :| 0 <= i < |ids| && 0 <= j < |ids| && ids[i] == c * size && ids[j] == k + r + c;
  }

  /** The first block of a group and its local parity. */
  lemma FirstOfGroup(k: nat, r: nat, z: nat, c: nat, size: nat)
    requires LocalShape(UniformLRC, k, r, z) && c < z && size == (k + r) / z
    ensures 0 <= c * size < k + r
    ensures RepairTable(UniformLRC, k, r, z)[c * size] == c == RepairTable(UniformLRC, k, r, z)[k + r + c]
  {
    DivExact(1, k + r, z);
    MulMono(c + 1, z, size);
    DivBelow(c * size, size, c);
    DivBelow(c * size, size, c + 1);
  }

  lemma StillThere(storage: map<nat, seq<byte>>, stored: seq<seq<byte>>, failed: nat, part: seq<nat>)
    requires Surviving(storage, stored, failed) && InRange(part, |stored|) && failed !in part
    ensures forall j :: 0 <= j < |part| ==> part[j] in storage && storage[part[j]] == stored[part[j]]
  {
    forall j | 0 <= j < |part| ensures part[j] in storage && storage[part[j]] == stored[part[j]] {
      assert part[j] in part;
    }
  }

  lemma UniformRepairByte(k: nat, r: nat, z: nat, failed: nat, at: nat, racks: seq<seq<nat>>, stored: seq<seq<byte>>,
      data: seq<seq<byte>>, len: nat, p: nat, bufs: seq<seq<byte>>)
    requires LocalShape(UniformLRC, k, r, z) && Shape(UniformLRC, k, r, z) && failed < k + r + z && p < len
    requires |data| == k && Stores(stored, Generator(UniformLRC, k, r, z), data, len)
    requires |stored| == k + r + z && forall i :: 0 <= i < |stored| ==> |stored[i]| == len
    requires var ids := GroupBlocks(UniformLRC, k, r, z, RepairTable(UniformLRC, k, r, z)[failed]);
      at < |ids| && ids[at] == failed && Partition(racks, Without(ids, at))
    requires forall i :: 0 <= i < |racks| ==> InRange(racks[i], k + r + z)
    requires |bufs| == |racks| && forall i :: 0 <= i < |bufs| ==> UniformShare(bufs[i], k, r, racks[i], stored, failed, len)
    ensures forall i :: 0 <= i < |bufs| ==> p < |bufs[i]|
    ensures XorAll(At(bufs, p)) == if failed < k && Byte(failed) == Byte(k + r) then 0 else stored[failed][p]
  {
    hide Encoded, Generator, GeneratorRow, GroupBlocks, RepairTable, Partition, Without, Byte, Shape, LocalShape, XorAll,
      UniformFactors, Dot;
    StoredWord(UniformLRC, k, r, z, stored, data, len, p);
    var x := At(data, p);
    forall i | 0 <= i < |bufs| ensures At(bufs, p)[i] == UniformPart(k, r, z, x, racks[i], failed) {
      assert At(Fetch(stored, racks[i]), p) == PickAt(Codeword(UniformLRC, k, r, z, x), racks[i]);
    }
    UniformRepair(k, r, z, x, failed, at, racks, At(bufs, p));
  }

  /** A data block with the weight 0 is lost for good: the word whose only nonzero data byte is in it is repaired to 0. */
  lemma UniformLoss(k: nat, r: nat, z: nat, failed: nat) returns (at: nat, sent: byte)
    requires LocalShape(UniformLRC, k, r, z) && Shape(UniformLRC, k, r, z)
    requires failed < k && Byte(failed) == Byte(k + r)
    ensures var ids := GroupBlocks(UniformLRC, k, r, z, RepairTable(UniformLRC, k, r, z)[failed]);
      && at < |ids| && ids[at] == failed && InRange(Without(ids, at), k + r + z)
      && sent == UniformPart(k, r, z, Unit(k, failed), Without(ids, at), failed)
    ensures Codeword(UniformLRC, k, r, z, Unit(k, failed))[failed] == 1 && sent == 0
  {
    hide LocalShape, Shape, RepairTable, Members, Without, UniformPart, Codeword, XorAll, Flatten, Byte, Partition, Unit;
    GroupBlocksSound(UniformLRC, k, r, z, RepairTable(UniformLRC, k, r, z)[failed]);
    var ids := GroupBlocks(UniformLRC, k, r, z, RepairTable(UniformLRC, k, r, z)[failed]);
    at :| at < |ids| && ids[at] == failed;
    var rest := Without(ids, at);
    SourcesSurvive(ids, at, k + r + z);
    sent := UniformPart(k, r, z, Unit(k, failed), rest, failed);
    OnePart(rest, sent);
    UniformRepair(k, r, z, Unit(k, failed), failed, at, [rest], [sent]);
    OwnDataByte(k, r, z, failed);
  }

  /** A validated configuration with such a block: block 0 of 254, with 2 global and 2 local parities. */
  lemma UniformUnrepairable() returns (at: nat, sent: byte)
    ensures Validated(UniformLRC, 254, 2, 2, 4, 87) && LocalShape(UniformLRC, 254, 2, 2) && Shape(UniformLRC, 254, 2, 2)
    ensures var ids := GroupBlocks(UniformLRC, 254, 2, 2, RepairTable(UniformLRC, 254, 2, 2)[0]);
      && at < |ids| && ids[at] == 0 && InRange(Without(ids, at), 258)
      && sent == UniformPart(254, 2, 2, Unit(254, 0), Without(ids, at), 0)
    ensures Codeword(UniformLRC, 254, 2, 2, Unit(254, 0))[0] == 1 && sent == 0
  {
    UnrepairableShape();
    hide *;
    at, sent := UniformLoss(254, 2, 2, 0);
  }

  lemma UnrepairableShape()
    ensures Validated(UniformLRC, 254, 2, 2, 4, 87)
    ensures LocalShape(UniformLRC, 254, 2, 2) && Shape(UniformLRC, 254, 2, 2) && Byte(0) == Byte(254 + 2)
  {
  }

  lemma OnePart(rest: seq<nat>, sent: byte)
    ensures Partition([rest], rest) && XorAll([sent]) == sent
  {
    XorOfOne(sent);
    assert [rest][..0] == [];
    assert Flatten([rest]) == rest;
  }

  lemma OwnDataByte(k: nat, r: nat, z: nat, i: nat)
    requires Shape(UniformLRC, k, r, z) && i < k
    ensures Codeword(UniformLRC, k, r, z, Unit(k, i))[i] == 1
  {
    hide Dot, LocalRow;
    DotUnit(k, i, Unit(k, i));
  }
}
