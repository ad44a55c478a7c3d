# Verified model of the UniLRC storage engine

A Dafny model of three parts of this repository, with proofs of what they promise.

**The codec and repair** (`Field` to `ProxyRecovery`, `LocalGroups`, `LocalRepair`, `AzureGlobalRepair`,
`StripeEncoder`). Bytes are elements of GF(256), multiplied by shift and reduce with 0x1d; the logarithm tables are tied
to that once. On top of it come the generator matrices of UniLRC, AzureLRC, OptimalLRC and UniformLRC, the table-driven
encoder, the in-place Gauss-Jordan inversion, the planner for several lost blocks, and the repair paths that XOR partial
results of several racks. The main results are that repaired blocks are the lost blocks: for any number of blocks and
bytes, any data, any split of the sources over proxies, and any order of arrival.

**Placement, appends and set writes** (`Placement` to `ConfigCapacity`, `Striping` to `CommitRaces`, `GroupClasses`
to `SetOperations`). The three stripe placements and what `validateConfig` guarantees for them; the slicing that client
and coordinator compute independently; datanodes that append blindly at the end of files, parity logs and the merge at
the end; the commit protocol as a state machine over the steps of coordinator, proxies and clients; and set and subset
writes. The append results are about whole runs: `AppendRun.AppendSession.Valid` holds after any sequence of appends,
and `AppendRun.FullStripe` says what the files are once the stripe is full.

**The stripe-merging simulator, OPT scheme** (`SimBlocks` to `StagedMerging`). Clusters are objects that change in
place; the placement and every stage of merging keep clusters and stripe lists in agreement (`MergeRun.SimOk`, read out
by the lemmas of `MergeResults`). Sets are gone through in arbitrary order.

Code that changes things in place is modelled by methods over arrays and objects and tied to functions of their contents;
the laws are lemmas about these functions. An assertion of the source that may fail is an `Option` or a flag in the
result, with the exact condition, or is proved never to fail.

## Assumptions

Appends and set writes assume what the source assumes without checking: UnitSize divides BlockSize (checked by
`validateConfig`), z divides k (and r for UniLRC and appends; k + r for UniformLRC), append sizes are positive, an append does not go beyond its
stripe, and no integer overflows. Parity slices of an append carry the encode of that append's bytes; the function that
produces them is only declared (`project/include/client.h:69`), and the client's append driver that calls the slicing is
commented out (`project/src/client.cpp:240-322`). The vector kernels and `xor_gen_avx` are other people's
code and enter by contract (`Encoder.DotProductKernel`, `LocalRepair.XorGen`; each has a plain body that meets it).
The matrix arguments that the source lays out in one flat buffer are two-dimensional arrays.

## Where the code does less than one might expect

- AzureLRC with k = z: a repair reads a single block, the XOR kernel refuses fewer than two, and as nobody looks at its
  result the repaired block is all zero (`LocalRepair.RecoverByXor`, `LocalRepair.SourcesEnough`,
  `LocalRepair.SingleSourceLoss`).
- AzureLRC: a configuration that passes `validateConfig` may have fewer nodes in a cluster than global parities; placing
  a stripe then never ends (`ConfigCapacity.AzureCapacity`, `ConfigCapacity.AzureShortfall`).
- UniformLRC: `validateConfig` asks for r + 1 nodes, but a local group that is a multiple of r + 1 needs r + 2
  (`ConfigCapacity.UniformCapacity`, `ConfigCapacity.UniformShortfall`); with z > k + r a local parity gets group -1
  (`Placement.UniformTooFewBlocks`), for which every stripe whose number is a multiple of ClusterNum has no cluster
  (`ConfigCapacity.UniformNoCluster`, `ConfigCapacity.UniformGroupMissing`).
- UniformLRC with k + r >= 256 may have a data block with a zero weight, which cannot be repaired locally
  (`LocalRepair.UniformScaleCorrect`, `LocalRepair.UniformLoss`, `LocalRepair.UniformUnrepairable`).
- OptimalLRC: if r + 1 divides k / z, the client's tables have one group too many per local group. Writing a whole stripe
  fails on an assertion, and so does writing the first b blocks unless b + r + 1 <= k / z (`SetCounts.OptimalDisagrees`,
  `SetOperations.Set`, `SetOperations.SubSet`, `SetOperations.OptimalSetFails`, `SetOperations.SubsetsThatFail`).
- UniformLRC: the client's tables do not cut local groups into chunks as the placement does. A whole stripe can be written
  only if a local group has r blocks, and first blocks only if it has r or r + 1 and they stay out of the last group. All
  else fails on an assertion or, if there are more parts than table entries, reads behind the tables; both are a failed cut
  in the model (`SetCounts.NumsDisagree`, `SubsetCounts.SubsetFits`, `SetOperations.SubsetsThatFail`).
- AzureLRC with one data block and all global parities lost: the planner looks at the first surviving local parity only, so
  it finds no plan if that is another group's, although the survivors may determine the data
  (`MultiBlockDecoding.AzureWithoutGlobals`, `MultiBlockDecoding.PlanMissed`).
- Commit: with two clients whose stripes share a cluster, a proxy can take one client's connection for the other's, and an
  entry that was never registered is committed (`CommitRaces.TwoAtOnce`). Exactly then: `CommitRaces.ConcurrentStripes` for
  the placement, `CommitRaces.SafeToIssue` for the state in which an append is issued.
- Simulator: `check_parameter` also accepts tails of g blocks with a first stage that merges; relocation then starts in
  the first stage, unlike in the closed form (`StagedMerging.CostsAgree`, `StagedMerging.CostsDiffer`).

## Model

| member | source | states |
|---|---|---|
| Field.MulAdd | project/src/encoder.cpp:698-700 | multiplication by shift and reduce (0x1d) distributes over XOR, in both factors |
| Field.MulBitsExchange | project/src/encoder.cpp:698-700 | the right-hand factors of a triple product may be exchanged, for any number of bits; commutativity and associativity follow |
| Field.MulComm | project/src/encoder.cpp:78-90 | the product is commutative |
| Field.MulAssoc | project/src/encoder.cpp:78-90 | the product is associative |
| Field.Power2Sum | project/src/encoder.cpp:52-55 | powers of 2 multiply by adding exponents |
| Tables.GffIsPower2 | project/include/encoder.h:9-27 | every entry of gff_base is the power of 2 with its index |
| Tables.Power2Injective | project/include/encoder.h:9-27 | 2 generates the multiplicative group: its powers 1 to 255 differ |
| Tables.Power2Cycle | project/include/encoder.h:9-27 | the 255th power of 2 is 1, so exponents count modulo 255 |
| Tables.Logarithm | project/include/encoder.h:29-47 | gflog_base is a logarithm with values 1 to 255 (the entry of 1 is 0xff, not 0) |
| Tables.GfMul | project/src/encoder.cpp:77-90 | the table product, with its single subtraction of 255, is the field product for all pairs of bytes |
| Tables.GfInv | project/src/encoder.cpp:21-27 | the table inverse is the inverse of every nonzero byte, and 0 for 0 |
| Tables.MulNonzero | project/src/encoder.cpp:77-90 | there are no zero divisors |
| LinearAlgebra.CombineApply | project/src/encoder.cpp:802-810 | combining rows commutes with applying the matrix: (vM)x = v(Mx) |
| GaussJordan.SwapRows | project/src/encoder.cpp:117-125 | swapping in place exchanges exactly the two rows |
| GaussJordan.ScaleRow | project/src/encoder.cpp:128-132 | scaling in place, also when the leading zeros are skipped |
| GaussJordan.AddScaledRow | project/src/encoder.cpp:134-143 | adding a multiple of a row in place changes exactly that row |
| GaussJordan.SwapKeeps | project/src/encoder.cpp:117-125 | a swap keeps in_mat = out_mat * original and the kernels of both |
| GaussJordan.ScaleKeeps | project/src/encoder.cpp:128-132 | so does scaling by a nonzero factor |
| GaussJordan.AddKeeps | project/src/encoder.cpp:134-143 | so does adding a multiple of another row |
| GaussJordan.MissingPivot | project/src/encoder.cpp:109-115 | when no row has a pivot, the columns so far give a nonzero vector that the original matrix sends to 0 |
| GaussJordan.MakePivot | project/src/encoder.cpp:107-132 | either column i gets a pivot 1 with all invariants kept, or the original is singular |
| GaussJordan.ClearColumn | project/src/encoder.cpp:134-143 | after clearing, column i is a unit column and the invariants hold |
| GaussJordan.FinishedInverse | project/src/encoder.cpp:105-145 | n unit columns make in_mat the identity and out_mat a left inverse |
| GaussJordan.RightInverse | project/src/encoder.cpp:92-146 | the left inverse found is a right inverse too |
| GaussJordan.GfInvertMatrix | project/src/encoder.cpp:92-146 | returns 0 exactly for invertible matrices, leaving in_mat the identity and out_mat the two-sided inverse; -1 comes with a nonzero kernel vector of the original |
| Independence.PivotSpan | project/src/encoder.cpp:890-903 | one elimination column keeps which data vectors the candidate rows determine |
| Independence.FullRank | project/src/encoder.cpp:908-918 | k pivots make the first k swapped-forward candidate rows of the original matrix independent |
| Independence.GapKernel | project/src/encoder.cpp:908-914 | fewer than k pivots leave a nonzero vector that all candidate rows send to 0 |
| Independence.PivotOn | project/src/encoder.cpp:890-903 | the in-place column elimination in the M x k candidate matrix |
| Independence.FindPivot | project/src/encoder.cpp:871-875 | the first row at or after cur with an entry in the column, if there is one |
| Independence.EliminateRows | project/src/encoder.cpp:869-918 | permutes the candidates so that cur = k exactly if all candidate rows determine the data, and then the first k are independent |
| DecodePlanner.CandidatesSound | project/src/encoder.cpp:836-851 | what has been collected where the loops end is exactly the surviving data blocks and global parities, and each surviving local parity with fewer than k survivors before it |
| DecodePlanner.CollectCandidates | project/src/encoder.cpp:840-851 | the two collecting loops give exactly these rows, in ascending order, each once; at least k of them exactly if at least k blocks survive |
| DecodePlanner.GfMulVectMatrix | project/src/encoder.cpp:802-810 | dest is the row combination vect * matrix |
| DecodePlanner.ChosenRows | project/src/encoder.cpp:916-918 | the chosen rows are k distinct blocks that did not fail |
| DecodePlanner.InvertChosen | project/src/encoder.cpp:920-951 | the inversion of chosen rows cannot fail; the factors express every failed row over the chosen ones |
| DecodePlanner.PlanDecoding | project/src/encoder.cpp:836-957 | a plan is found exactly if at least k blocks survive and only zero data is sent to zero by all surviving data blocks, global parities and the local parities with fewer than k survivors before them; a plan found names k distinct survivors whose factor-weighted XOR is each failed block, for all data |
| MultiBlockDecoding.MdsKernel | project/src/encoder.cpp:59-75 | a vector killed by all but r rows of [I; Cauchy] is zero, k + r <= 256 |
| MultiBlockDecoding.GetMultiDecodePlan | project/src/encoder.cpp:812-958 | fails for unknown codes; otherwise returns true exactly under the condition of PlanDecoding on the generator of the code, and then with a valid plan: always for at most r failures of OptimalLRC and UniformLRC with k + r <= 256; and for AzureLRC without one data block and all global parities exactly if that block's local parity survives and all local parities before it failed |
| MultiBlockDecoding.AzureWithoutGlobals | project/src/encoder.cpp:840-857 | why: the first surviving local parity is the only one looked at, although the survivors determine the data whenever the lost block's own local parity is among them |
| MultiBlockDecoding.PlanMissed | project/src/encoder.cpp:840-857 | AzureLRC with k = 4, r = z = 2 and blocks 2, 4 and 5 lost: the survivors determine the data, and no plan is found |
| Cauchy.CauchyIndependent | project/src/encoder.cpp:59-75 | any square part of the Cauchy rows 1/(i+j), i and j below 256, is invertible: as many rows as unknown columns force the unknowns to zero |
| Cauchy.EliminationStep | project/src/encoder.cpp:70-74 | eliminating one unknown from a Cauchy system leaves a Cauchy system |
| Vandermonde.RootCount | project/src/encoder.cpp:49-56 | a polynomial with as many distinct roots as coefficients is zero |
| Vandermonde.PowersIndependent | project/src/encoder.cpp:49-56 | power rows at distinct points determine the leading unknowns |
| Generators.GfGenRsMatrix1 | project/src/encoder.cpp:39-57 | the loop that doubles gen fills row i >= k with the powers of 2^(i-k+1), below the identity |
| Generators.GfGenCauchyMatrix1 | project/src/encoder.cpp:59-75 | identity rows, then rows gf_inv(i ^ j) |
| Generators.SetLocalParts | project/src/encoder.cpp:363-366 | each data block gets its factor, 1 or gf_inv(j ^ (k + r)), in exactly the local row of its group, for all four codes |
| Generators.AddGlobalRows | project/src/encoder.cpp:398-404 | folds a run of global parity rows into a local row in place |
| ParityEquations.GenMatrix | project/src/encoder.cpp:358-433 | the four matrices, built in place: identity, then powers 2^((i-k+1)j) or gf_inv(i ^ j); and for every data vector each local parity, the weighted data of its group, and its global parities (r/z each, none, all, or all in the last group) XOR to 0 |
| Generators.EntriesOfGenerator | project/src/encoder.cpp:39-75 | the first k + r rows entry by entry |
| ParityEquations.GeneratorMeets | project/src/encoder.cpp:358-433 | the parities that the rows make of any data are the sums written out, and local parities with their groups and global parities add up to zero |
| ParityEquations.EquationsUnique | project/src/encoder.cpp:358-433 | these equations determine all parities of the data |
| Encoder.GfVectMulInit | project/src/encoder.cpp:695-800 | the 32 table bytes are the products with all low and all high nibbles |
| Encoder.TableProductCorrect | project/src/encoder.cpp:695-800 | two table look-ups XORed are the product with the coefficient, for every byte |
| Encoder.EcInitTables | project/src/encoder.cpp:682-693 | table slot (row, column) is that of the matrix entry, for any shape |
| Encoder.DotProductKernel | project/src/encoder.cpp:6-14 | contract of the 1- to 6-row vector kernels, which need at least one source: rows first..first+n-1 of the product, nothing else changed |
| Encoder.EcEncodeDataBase | project/src/encoder.cpp:653-669 | the byte loop, which reads coefficients back from entry 1 of their tables, computes the matrix-vector product |
| Encoder.EcEncodeData | project/src/encoder.cpp:616-651 | short blocks by the byte loop, long ones six rows at a time and the rest in one kernel call: always the matrix-vector product, for every row count |
| Encoder.EncodeData | project/src/encoder.cpp:671-680 | encode_data is the matrix-vector product at every byte position; without a source only where no vector kernel is called |
| StripeEncoder.EncodeStripe | project/src/encoder.cpp:166-181 | all r + z parities are their generator rows applied to the data, and byte by byte what the equations of the code ask for |
| StripeEncoder.PartialEncode | project/src/encoder.cpp:183-212 | encoding b blocks with the truncated parity rows gives the parities of the stripe whose other data blocks are zero, in the same two senses |
| StripeEncoder.ParitiesMeet | project/src/encoder.cpp:166-181 | blocks are the parities of the generator rows exactly if their bytes meet the equations of the code |
| StripeEncoder.ParitiesUnique | project/src/encoder.cpp:183-212 | parities of the same data are the same, so a partial encode equals the full encode with zeroed blocks |
| StripeEncoder.StripeStored | project/src/encoder.cpp:166-181 | data followed by such parities is a stripe as the repair results expect it |
| Aggregation.SumOverPermuted | project/src/proxy.cpp:2075-2083 | XOR over a list of blocks depends only on which blocks are in it |
| Aggregation.PartitionSum | project/src/proxy.cpp:2462-2478 | XORing the partial sums of a partition gives the whole sum |
| Aggregation.PartialDots | project/src/proxy.cpp:2348-2361 | each part combined with its own columns, then XORed, is the full combination, for every partition |
| Aggregation.MissingMember | project/src/encoder.cpp:471-481 | if a list of blocks sums to zero, any member is the sum of the others |
| ProxyRecovery.PartialDecoding | project/src/proxy.cpp:2348-2361 | a proxy's payload holds, block after block, its share of every failed block |
| ProxyRecovery.XorSlice | project/src/proxy.cpp:2456-2478 | out_blocks[b] is the XOR of slice b of all payloads |
| ProxyRecovery.MultipleRecovery | project/src/proxy.cpp:2384-2479 | None without proxies or blocks; otherwise one XORed block per failed block |
| ProxyRecovery.RecoverThroughProxies | project/src/proxy.cpp:2321-2479 | with any valid plan, split over any partition of the sources into nonempty parts, the recovered blocks are the lost ones |
| LocalGroups.LocalGroupZero | project/src/encoder.cpp:358-433 | in UniLRC, AzureLRC and UniformLRC the weighted blocks of each local group, parities included, XOR to zero for every data vector |
| LocalRepair.RepairInPlacementGroup | project/src/coordinator.cpp:316-366 | recovery groups of UniLRC and AzureLRC are their placement groups |
| LocalRepair.GetRecoveryGroupIds | project/src/coordinator.cpp:892-906 | a UniLRC block has exactly one recovery group, and that is its placement group |
| LocalRepair.SourcesOf | project/src/coordinator.cpp:1652-1663 | the sources are the group's other members, in order |
| LocalRepair.XorGen | project/src/asm/xor_gen_avx.asm:105-108 | contract of the XOR kernel: the buffer becomes the XOR of the sources, but with fewer than two sources it stays as it is and the code is 1 |
| LocalRepair.DecodeUnilrc | project/src/encoder.cpp:471-481 | the result is the XOR of the blocks, and all zero if there are fewer than two, because the code of the kernel is not looked at |
| LocalRepair.RecoverByXor | project/src/proxy.cpp:2010-2026 | single-block repair is exact for every UniLRC block and, for AzureLRC with more data blocks than groups, for data and local parities; with k = z it gives a block of zeros |
| LocalRepair.SourcesEnough | project/src/coordinator.cpp:1652-1663 | how many blocks a repair reads: fewer than two exactly for AzureLRC with k = z |
| LocalRepair.SingleSourceLoss | project/src/coordinator.cpp:1652-1663 | a validated AzureLRC configuration (k = r = z = 2) where any data block with any content but zeros has one source only, so that its repair differs from it |
| LocalRepair.GroupRepair | project/src/encoder.cpp:358-433 | any member of a local group, weighted, is the weighted sum of the others |
| LocalRepair.DecodeUniformLrc | project/src/encoder.cpp:580-614 | the result is the combination of the listed blocks with their local factors (1 for parities), rescaled for a lost data block |
| LocalRepair.UniformDecodes | project/src/encoder.cpp:580-614 | decoding a list is its weighted sum, scaled for the failed block |
| LocalRepair.UniformScaleCorrect | project/src/encoder.cpp:597-602 | the scale undoes the failed block's weight unless a data block's number agrees with k + r in the low byte, which k + r <= 255 excludes |
| LocalRepair.UniformRepair | project/src/proxy.cpp:2075-2083 | the decodes of any split of the rest of the local group XOR to the lost byte, or to 0 if the lost block's factor is 0 |
| LocalRepair.XorRacks | project/src/proxy.cpp:2035-2101 | with one rack its own buffer is the result, with more the XOR of all buffers |
| LocalRepair.RecoverUniform | project/src/proxy.cpp:2025-2101 | the same from stored blocks: each rack decodes its part, the destination XORs the buffers if there are several, and the lost block comes back unless its factor is 0 |
| LocalRepair.UniformLoss | project/src/encoder.cpp:580-614 | every data block with the factor 0 has a content that is repaired wrongly |
| LocalRepair.UniformUnrepairable | project/src/encoder.cpp:580-614 | a concrete validated configuration with such a block (k = 254, r = 2, z = 2, block 0) |
| AzureGlobalRepair.UsedRowsForm | project/src/encoder.cpp:506-514 | used_row is all data rows after the first group and the first k/z surviving parities |
| AzureGlobalRepair.UsedRowsIndependent | project/src/encoder.cpp:498-521 | the matrix that decode_azure_lrc inverts is invertible (r <= 255, r - 1 >= k/z) |
| AzureGlobalRepair.CoefficientsUnique | project/src/encoder.cpp:515-527 | every rack arrives at the same coefficients |
| AzureGlobalRepair.UsedRow | project/src/encoder.cpp:506-514 | the row loop fills all k entries, and idx_to_row is the inverse of used_row |
| AzureGlobalRepair.VectAll | project/src/encoder.cpp:515-523 | vect_all expresses the lost row over the used rows, uniquely |
| AzureGlobalRepair.DecodeAzureLrc | project/src/encoder.cpp:496-541 | a rack's buffer is its share of that combination |
| AzureGlobalRepair.ChooseBlocks | project/src/coordinator.cpp:1704-1718 | the selection loop takes the first k/z blocks that are neither local parities nor lost |
| AzureGlobalRepair.KeptOfGroup | project/src/coordinator.cpp:304-369 | what is eligible in placement group c: its data blocks, or the surviving global parities |
| AzureGlobalRepair.RackReads | project/src/coordinator.cpp:1679-1766 | groups 1 to z together read exactly used_row, each its own stretch of k/z |
| AzureGlobalRepair.ArrivalOrder | project/src/proxy.cpp:2051-2083 | the order in which racks' buffers arrive does not matter |
| AzureGlobalRepair.SharesSum | project/src/proxy.cpp:2075-2083 | the racks' shares XOR to the lost row applied to the data |
| AzureGlobalRepair.RecoverAzureGlobal | project/src/coordinator.cpp:1679-1766 | repair of a lost AzureLRC global parity across z >= 2 racks returns the lost block, for any arrival order |
| Placement.UniAzureConsecutive | project/src/coordinator.cpp:316-356 | UniLRC and AzureLRC groups are numbered without a gap |
| Placement.OptimalConsecutive | project/src/coordinator.cpp:171-211 | OptimalLRC groups are numbered without a gap |
| Placement.UniformConsecutive | project/src/coordinator.cpp:235-256 | UniformLRC groups are numbered without a gap if z <= k + r |
| Placement.UniformTooFewBlocks | project/src/coordinator.cpp:238-256 | and with fewer blocks local parity 0 gets group -1 |
| Placement.AssignUniformGroups | project/src/coordinator.cpp:235-256 | the two assignment loops give the table of local groups cut into chunks of r + 1 |
| NodePlacement.ClusterOf | project/src/coordinator.cpp:358 | the cluster is the remainder of the stripe's own cluster plus the group, with the sign of the dividend: round robin for groups from 0 on, and for group -1 the cluster before the stripe's own, negative if that is cluster 0 |
| NodePlacement.PlaceBlocks | project/src/coordinator.cpp:315-369 | all blocks get distinct nodes of their clusters, and group_to_blocks lists each group in order, exactly if every block has a cluster and every cluster enough nodes |
| NodePlacement.GroupsToClusters | project/src/coordinator.cpp:358 | with at least as many clusters as groups, different groups are in different clusters |
| NodePlacement.FitsByGroup | project/src/coordinator.cpp:2918-2935 | a stripe fits exactly if every group has at most as many blocks as a cluster has nodes |
| ConfigCapacity.UniCapacity | project/src/config.cpp:23-27 | every UniLRC configuration that passes validateConfig has room for every stripe |
| ConfigCapacity.AzureCapacity | project/src/config.cpp:28-32 | for AzureLRC that holds exactly if a cluster has at least r nodes, which validateConfig does not ask for |
| ConfigCapacity.AzureShortfall | project/src/config.cpp:28-32 | a concrete validated AzureLRC configuration without room |
| ConfigCapacity.OptimalCapacity | project/src/config.cpp:33-37 | every validated OptimalLRC configuration has room |
| ConfigCapacity.UniformCapacity | project/src/config.cpp:38-42 | with enough clusters and more than r nodes in each, as validateConfig asks, UniformLRC has room exactly if clusters have r + 2 nodes or no local group is a multiple of r + 1 |
| ConfigCapacity.UniformShortfall | project/src/config.cpp:38-42 | a concrete validated UniformLRC configuration without room |
| ConfigCapacity.UniformNoCluster | project/src/coordinator.cpp:235-283 | with fewer data blocks and global parities than groups, no stripe fits whose number is a multiple of the number of clusters |
| ConfigCapacity.UniformGroupMissing | project/src/coordinator.cpp:238-256 | a concrete validated UniformLRC configuration with a group -1: a stripe fits exactly if its number is not a multiple of 3 |
| ConfigCapacity.UniParametersFit | project/src/config.cpp:80-86 | the k and r that loadConfig computes for UniLRC are multiples of z with quotients alpha (z - 1) and alpha |
| ConfigCapacity.LoadedUniCapacity | project/src/config.cpp:80-86 | so every loaded and validated UniLRC configuration with data has room for every stripe |
| ConfigCapacity.UniformGroupNumber | project/src/config.cpp:41 | the number of UniformLRC groups is the expression in validateConfig |
| ConfigCapacity.UniformClusters | project/src/config.cpp:38-42 | so there are more clusters than groups |
| Striping.OffsetIsFill | project/src/coordinator.cpp:475 | the planned physical offset of a stream byte is the number of bytes its block got before |
| Striping.FillForward | project/src/coordinator.cpp:481-483 | a stretch within one unit extends one block by its length and no other |
| Striping.FillCounts | project/src/coordinator.cpp:453-484 | between two offsets a block is filled by the number of bytes p with p/U%k = b |
| Striping.DealtAt | project/src/coordinator.cpp:453-484 | byte o of the stream is in block o/U%k at offset o/(kU)*U + o%U |
| Striping.DealtFrom | project/src/coordinator.cpp:453-484 | and every byte of a block is such a byte of the stream |
| Striping.FillTotal | project/src/coordinator.cpp:453-484 | the blocks together hold exactly the bytes of the stream |
| Striping.FillFull | project/src/coordinator.cpp:457 | a full stripe fills every block to BlockSize |
| ParitySlices.ParityCovers | project/src/coordinator.cpp:422-446 | the parity slice covers the physical offset of every byte of the append and ends within the block, in both modes |
| ParitySlices.CoordinatorParitySlice | project/src/coordinator.cpp:418-450 | UNILRC_MODE within a unit: the append's own offsets; over several rows and ending in the first unit of one: from the start of the first row's unit to the last byte; otherwise, and always in CACHED_MODE: whole rows |
| ClientAppend.ClientParitySlice | project/src/client.cpp:133-160 | the client's computation, which starts from whole rows, gives the same slice |
| ParitySlices.ParityExtentOf | project/src/coordinator.cpp:431-446 | there is exactly one such slice |
| AppendPlan.SliceStep | project/src/coordinator.cpp:460-484 | one pass of the loop keeps the map in step with the stream, also when it wraps to a block already in it |
| AppendPlan.CursorStep | project/src/coordinator.cpp:460-484 | the running block number is always the block of the running offset |
| AppendPlan.PlaceDataSlices | project/src/coordinator.cpp:453-484 | a block gets a slice exactly if p/U%k is that block for some byte p of the append; its size is the number of these bytes, its offset that of such bytes before the append |
| AppendPlan.DataSlicesTotal | project/src/coordinator.cpp:453-484 | the data slices hold exactly the appended bytes |
| AppendPlan.GetClusterAppendSize | project/src/coordinator.cpp:379-391 | the announced size of a cluster is the sum of its plan's slice sizes |
| AppendPlan.GenerateAppendPlan | project/src/coordinator.cpp:407-546 | one plan per group i: in ascending order the data blocks with b/(k/z) = i that some byte of the append goes to, the global parities with t/(r/z) = i and local parity i, with the number and place of their bytes or the parity slice written out; the announced size is the sum; merge and serialization flags |
| ClientAppend.PlaceDataSizes | project/src/client.cpp:162-189 | the client's own slicing loop: exactly the blocks that bytes p with p/U%k = b go to, with their numbers |
| ClientAppend.GetAppendSlicePlans | project/src/client.cpp:135-223 | cluster by cluster exactly the sizes of generateAppendPlan, block by block in ascending order: numbers of bytes, or the size of the parity slice; data sizes sum to the append size |
| ClientAppend.EachGetsSome | project/src/coordinator.cpp:379-391 | every group is announced at least a parity slice, so every append writes to all clusters of its stripe |
| ClientAppend.SplitCharPointer | project/src/toolbox.cpp:13-29 | the assertions hold exactly if the sizes sum to the buffer's length |
| ClientAppend.PiecesJoin | project/src/toolbox.cpp:13-29 | the pieces put together are the buffer |
| ClientAppend.CutAppend | project/src/toolbox.cpp:31-49 | for every append no cut of client or proxy fails, and both see the same slices |
| ParityLog.IntRoundTrip | project/src/datanode.cpp:25-26 | a 32-bit integer written in four little-endian bytes reads back the same, negative ones included |
| ParityLog.RecordLayout | project/src/datanode.cpp:25-27 | a record is the offset and the size, four bytes each and lowest first, and then the bytes |
| ParityLog.ParsedSerialized | project/src/datanode.cpp:19-70 | reading back a file of serialized slices gives the slices in order |
| ParityLog.Deserialize | project/src/datanode.cpp:37-70 | the read-until-EOF loop parses exactly such files |
| ParityLog.MergeSlices | project/src/datanode.cpp:436-445 | the merge loop XORs all slices into the block; its assertion fails exactly if a slice leaves the block |
| ParityLog.MergedPermuted | project/src/datanode.cpp:438-445 | slices may be merged in any order |
| ParityLog.Storage.AppendData | project/src/datanode.cpp:138-188 | appends at the end of the file; aborts exactly for offset 0 on an existing file |
| ParityLog.Storage.AppendParity | project/src/datanode.cpp:191-234 | appends a record, or raw bytes |
| ParityLog.Storage.MergeParity | project/src/datanode.cpp:411-468 | replaces a log by the block its slices add up to; a slice outside the block leaves the log emptied; other files are untouched |
| AppendRun.ParityGrows | project/src/coordinator.cpp:431-443 | parity of the longer stream is the old parity XOR the encode of the append (linearity) |
| AppendRun.OutsideSlice | project/src/coordinator.cpp:431-443 | outside its parity slice an append contributes nothing |
| AppendRun.SliceContribution | project/src/datanode.cpp:438-445 | what a parity slice adds to each byte of the block is the encode of the append there |
| AppendRun.LogGrows | project/src/datanode.cpp:19-35 | one more slice keeps a parity log equal to the parity of the stream so far |
| AppendRun.WholeSlice | project/src/coordinator.cpp:502-506 | an append of a whole stripe has a parity slice that is the whole block, which is stored raw |
| AppendRun.HandleAppend | project/src/datanode.cpp:126-240 | the handlers' assertion never fails, and each file stays the striped layout or a parity log in step with the stream |
| AppendRun.HandleMerge | project/src/datanode.cpp:411-468 | merging a full log gives the parity of the full stripe; the merge assertion never fails |
| AppendRun.SendSlices | project/src/proxy.cpp:602-622 | a proxy's slices go to the files of their blocks, all others stay |
| AppendRun.MergeAll | project/src/proxy.cpp:630-638 | the merge requests turn exactly the plan's parity logs into blocks |
| AppendRun.ProxyAppend | project/src/proxy.cpp:567-645 | after one proxy's slices and merge requests the files of its plan's blocks are in step with the longer stream, and no others have changed |
| AppendRun.AppendSession.Append | project/src/coordinator.cpp:567-650 | over any run of appends: byte p of the stream so far is in data file p/U%k at offset p/(kU)*U + p%U and the files hold nothing else, parity files never mix raw and serialized content, no assertion fails, and merge is asked for exactly by the last of at least two appends |
| AppendRun.FullStripe | project/src/datanode.cpp:436-448 | all files of a full stripe have BlockSize bytes, byte p of the stream is in data file p/U%k at offset p/(kU)*U + p%U, and every parity file is its generator row applied to the data files |
| StripeOffsets.AppendKeeps | project/src/coordinator.cpp:576-647 | clients never share an open stripe, and each stripe's offset is what it was given so far |
| StripeOffsets.OffsetTable.UploadAppendValue | project/src/coordinator.cpp:567-650 | an append goes right behind what its client's stripe holds; a full stripe is forgotten |
| CommitProtocol.StepKeeps | project/src/coordinator.cpp:548-564 | every step of coordinator, proxies and clients keeps the protocol invariant, if appends are issued in turn and to proxies that are clear of other stripes' connections |
| CommitProtocol.RunKeeps | project/src/coordinator.cpp:616-639 | the invariant holds in every state of every such run |
| CommitProtocol.OneAtATimeIsCareful | project/src/client.cpp:661-669 | issuing appends one at a time meets that condition, in every interleaving |
| CommitProtocol.WaitsAreRight | project/src/coordinator.cpp:2812-2817 | in every such run a wait ends only after the proxy's report for that same append, with the registered entry committed |
| CommitProtocol.NewestReported | project/src/coordinator.cpp:2660-2667 | once the latest append to a key is reported, its registered entry is the committed one |
| CommitProtocol.ReportsAreRight | project/src/proxy.cpp:571-657 | a proxy thread reports only on its own append's data, and the entry it commits was registered, never default-constructed |
| CommitRaces.CarelessFails | project/src/proxy.cpp:571-573 | after any such run, an append issued while one of its proxies still expects another stripe's connection can go on to a wait that ends with a default-constructed entry |
| CommitRaces.SafeToIssue | project/src/coordinator.cpp:616-639 | so an append may be issued exactly if its proxies are clear: all that can follow is right if they are, and something wrong can follow if they are not |
| CommitRaces.MeetingFails | project/src/coordinator.cpp:498-557 | for any two stripes with groups in one cluster and first appends of any sizes, with the entries that generateAppendPlan gives them, a run that goes wrong |
| CommitRaces.ConcurrentStripes | project/src/coordinator.cpp:315-358 | with the round-robin placement, stripes may be written concurrently, each by its client in turn, exactly if no two of them have groups in the same cluster; so for plans of any sizes, and also if only plans of appends are issued |
| CommitRaces.TwoAtOnce | project/src/client.cpp:335-354 | a run on a validated UniLRC configuration (z = 2, 3 clusters) that goes wrong: the first appends of two clients to stripes 0 and 1, of whatever sizes |
| GroupClasses.GatheredAll | project/src/client.cpp:597-608 | going through the groups in order goes through the blocks of each kind in order |
| GroupClasses.CutGroup | project/src/client.cpp:713-722 | cutting the data blocks off after b leaves each group the smaller of its number and the remaining capacity |
| SetCounts.SetRising | project/src/coordinator.cpp:160-223 | placement groups of data blocks, of global and of local parities never fall with the block number |
| SetCounts.GetDataBlockNumPerGroup | project/src/client.cpp:392-467 | the client's data numbers per group |
| SetCounts.GetGlobalParityBlockNumPerGroup | project/src/client.cpp:469-525 | the same for global parities |
| SetCounts.GetLocalParityBlockNumPerGroup | project/src/client.cpp:527-595 | the same for local parities |
| SetCounts.NumsAgree | project/src/client.cpp:392-595 | they are the numbers of the placement for UniLRC, AzureLRC, OptimalLRC unless r + 1 divides k/z, and UniformLRC if (k + r)/z = r |
| SetCounts.UniformNums | project/src/coordinator.cpp:238-256 | the blocks of each UniformLRC placement group by kind, when local groups have at most r + 1 blocks |
| SetCounts.NumsDisagree | project/src/client.cpp:392-595 | otherwise the coordinator has a group without an entry in the tables, or one whose number of blocks is another one |
| SetWrites.GenerateSubAddPlans | project/src/coordinator.cpp:680-724 | one plan for each group that gets anything, with its written data blocks and its parities |
| SetWrites.GenerateAddPlans | project/src/coordinator.cpp:652-678 | one plan for each group, with all its blocks |
| SetWrites.Truncate | project/src/client.cpp:715-722 | the capacity loop: the first groups keep min(block_num, all) blocks together, for every number of first groups |
| SetWrites.CappedClasses | project/src/client.cpp:713-722 | if the numbers were those of the groups, each group is left exactly its blocks below block_num |
| SetWrites.RemoveCommonZeros | project/src/toolbox.cpp:149-173 | erasing from the back keeps exactly the positions at which not all three lists are zero, in order; lists of unequal length are left alone |
| SetShipment.SplitForSet | project/src/client.cpp:597-608 | the cuts succeed exactly if each part is as long as its three numbers say |
| SetShipment.PlannedOnce | project/src/coordinator.cpp:680-724 | no block is planned twice, and none but the written data blocks and all parities |
| SetShipment.PointersAgree | project/src/client.cpp:730-732 | the j-th data pointer is the slice planned for data block j, the j-th parity pointer the one planned for block k + j |
| SetShipment.EncodeInPlace | project/src/client.cpp:733-750 | after encoding in place every slice holds the block under whose key it is sent |
| SubsetCounts.SubsetAgreement | project/src/client.cpp:707-732 | for any number of first data blocks: after the cut and without empty groups the tables give the numbers of the plans if SubsetFits, and otherwise a part is missing or has another size |
| SubsetCounts.EvenSubsetAgrees | project/src/client.cpp:404-423 | OptimalLRC with r + 1 dividing k/z: they agree if the blocks stay out of the group of the first local parity (b + r + 1 <= k/z) |
| SubsetCounts.EvenSubsetDiffers | project/src/client.cpp:404-423 | and if not, the part of that group has one block more than the client cuts |
| SubsetCounts.UniformSubsetAgrees | project/src/client.cpp:425-464 | UniformLRC: they agree if local groups have r or r + 1 blocks and none of the written ones is in the last group |
| SubsetCounts.UniformSubsetDiffers | project/src/client.cpp:425-464 | and if not, the last part has another size, or local groups are several placement groups and the client has no entry for them all |
| SubsetCounts.AllBlocksFit | project/src/client.cpp:707-722 | for all k blocks the condition is that of a whole write |
| SetOperations.Set | project/src/client.cpp:610-687 | writing a whole stripe succeeds exactly if the tables fit, and then what is sent is the encoded stripe, each block under its own key; all four codes |
| SetOperations.OptimalSetFails | project/src/client.cpp:404-423 | a concrete validated OptimalLRC configuration for which every whole-stripe write fails |
| SetOperations.SubSet | project/src/client.cpp:690-776 | writing the first blocks succeeds exactly if SubsetFits, and then sends the stripe whose other data blocks are zero, each block under its own key; all four codes |
| SetOperations.PlacementListsGroups | project/src/coordinator.cpp:372-377 | the plans start from the groups that the placement recorded |
| SimBlocks.Cluster.AddNewBlock | simulation/utils.py:49-57 | the block is appended; counters stay those of the contents; type priority L > G > D |
| SimBlocks.Cluster.RemoveBlock | simulation/utils.py:59-72 | the index loop with pop removes exactly the blocks of one kind and stripe, keeps the order, and returns their groups |
| SimBlocks.Cluster.MergeToLargerStripe | simulation/optimal.py:133-138 | renaming tags one after the other renames exactly the merged range, although new ids reuse old ones |
| StageInvariant.TagMerges | simulation/optimal.py:90-95 | the tag of a data block after n + 1 merges follows from the one after n |
| StageInvariant.TagNotTaken | simulation/optimal.py:93-138 | id n is not in use when larger stripe n gets it, unless it is one of those merged |
| StageInvariant.MergedDataCount | simulation/optimal.py:161-165 | after renaming, a tail cluster holds xi times the tail of the larger stripe |
| StageSteps.ReplaceGlobals | simulation/optimal.py:150-158 | dropping the old and adding the new global parities leaves each number once, of all stripes |
| StageSteps.ReplaceLocals | simulation/optimal.py:164-173 | the same for the local parities of a cluster, one per group |
| StageSteps.SurplusOut | simulation/optimal.py:175-228 | once the surplus is moved the cluster holds what the next stage needs |
| SimPlacement.DataPlacement.FindTarget | simulation/optimal.py:189-214 | a suitable cluster of the set if there is one, in any order of iteration |
| SimPlacement.DataPlacement.MoveTo | simulation/optimal.py:193-226 | the block moves, counters and index included, to the chosen or a new cluster |
| Relocation.MoveKeeps | simulation/optimal.py:182-228 | one move keeps the invariant of the relocation loop, data clusters at most g + 1 and of one group and stripe |
| Relocation.MoveTotal | simulation/optimal.py:182-228 | a move loses and duplicates no block |
| Relocation.EnoughMoved | simulation/optimal.py:182-184 | the loop cannot run out of blocks before data_to_move are out |
| ClusterPacking.MovePacked | simulation/optimal.py:189-226 | while clusters with room are taken first, those newly opened are full except for the last, and none is opened while an old one has room |
| ClusterPacking.OpenedCount | simulation/optimal.py:189-226 | then the number of new clusters is what did not fit, divided by g + 1 and rounded up |
| MergeStep.MoveSurplus | simulation/optimal.py:188-226 | one turn of the loop: a new cluster is opened only if no other data cluster in cluster_set or new_cluster_set with blocks of that group has fewer than g + 1 blocks |
| MergeStep.RelocateLoop | simulation/optimal.py:181-228 | the loop ends when data_to_move blocks are moved or at the end of the cluster, with the invariant of the clusters kept |
| MergeStep.Relocate | simulation/optimal.py:176-228 | the relocation loop moves exactly data_to_move blocks of the larger stripe; at most one of the clusters it opens has fewer than g + 1 blocks, and it opens as many as the blocks that do not fit into the others need, rounded up |
| MergeStep.SurplusTest | simulation/optimal.py:162-177 | the comparison with the rounded-up data count per larger stripe comes out the same for every merge of a stage |
| MergeStep.NewLocalParities | simulation/optimal.py:166-173 | local parities of all removed groups, in any order of the set |
| MergeStage.HandleCluster | simulation/optimal.py:161-228 | one cluster's turn: new local parities, then relocation of the surplus, and how much was moved |
| MergeOne.RenameClusters | simulation/optimal.py:133-138 | all clusters of the set renamed, in any order |
| MergeOne.RenewGlobals | simulation/optimal.py:150-158 | the global cluster's parities of the larger stripe replaced |
| MergeOne.HandleClusters | simulation/optimal.py:160-228 | every cluster gets its turn, in any order |
| MergeFill.TurnsFill | simulation/optimal.py:160-228 | so each group of the larger stripe has the clusters of its xi stripes and those opened in its tail's turn |
| MergeOne.OtherPlaces | simulation/optimal.py:90-233 | a merge leaves the recorded places of the other stripes right |
| MergeOne.MergeStripes | simulation/optimal.py:90-230 | one merge keeps the whole invariant, moves (xi - 1)g blocks per tail cluster, or none, and gives each group of the larger stripe the clusters and blocks that this takes |
| StripeInfo.InDataIds | simulation/optimal.py:96-103 | which data identifiers a merged group lists |
| StripeInfo.MergeInfo | simulation/optimal.py:93-110 | the larger stripe lists the groups' data in order, one L per group and g G's |
| MergeRun.RunStage | simulation/optimal.py:84-238 | a stage takes one agreeing state of clusters and stripes to the next, for any number of merges, with its relocation cost |
| MergeFill.ClustersInAll | simulation/optimal.py:84-238 | the number of all clusters between stages: the global one, the tail clusters, and those of the groups of each stripe |
| MergeResults.DataPlace | simulation/optimal.py:81-237 | after every stage each data block is in exactly one place, tagged with its group and stripe |
| MergeResults.ListedOnce | simulation/optimal.py:81-237 | every block a stripe lists is in exactly one cluster, one that the stripe records |
| MergeResults.StoredIsListed | simulation/optimal.py:81-237 | nothing is stored that no stripe lists; ids never conflate two stripes |
| MergeResults.LocalPlace | simulation/optimal.py:164-173 | one L per group and stripe, in exactly one place |
| MergeResults.GlobalPlace | simulation/optimal.py:150-158 | g G's per stripe, all in the global cluster |
| MergeResults.AtMostPerStripe | simulation/optimal.py:174-228 | no cluster but the global one holds more than g + 1 blocks of one stripe |
| OptReady.OptViewReady | simulation/optimal.py:7-76 | the placement's clusters meet the merging invariant |
| OptReady.OptEven | simulation/optimal.py:12-26 | each group of each stripe has one cluster per g + 1 blocks besides its tail |
| OptPlacement.GenerateStripe | simulation/utils.py:158-176 | the stripe lists of generate_stripe_information |
| OptPlacement.DisperseGroup | simulation/optimal.py:12-26 | full runs of g + 1 blocks go to new clusters, the rest is returned |
| OptPlacement.PlaceTails | simulation/optimal.py:48-60 | one cluster per group for the tails of all stripes |
| OptPlacement.Placement | simulation/optimal.py:7-76 | the placement is a sound start for merging, for all l, g, k/l and x |
| StagedMerging.StagedStripeMerging.constructor | simulation/utils.py:240-255 | the initial state agrees |
| StagedMerging.StagedStripeMerging.StripeMerging | simulation/optimal.py:81-240 | for every stage list that check_parameter accepts, the state after each stage is sound, with the number of stripes merged and the tails that the stages so far give, with the number of clusters in which new ones are opened for rounded-up quotients by g + 1 only, and the relocation costs are as predicted |
| StagedMerging.CalDcForOpt | simulation/formula_validation.py:26-61 | the loop accumulates the closed form |
| StagedMerging.CostsAgree | simulation/formula_validation.py:34-44 | simulated relocation cost equals the closed form at every stage exactly if m = 0 or the first stage factor is g/m |
| StagedMerging.CostsDiffer | simulation/utils.py:257-263 | an accepted stage list with m = g and a merging first stage, with both cost lists written out |

## Left out

- REP_MODE appends, and the parity contents of CACHED_MODE (the slicing of CACHED_MODE is modelled).
- `gen_lotuslrc_matrix`: its row offsets do not fit the matrix; the client does not use it.
- `decode_optimal_lrc`: it chooses coefficients by the first index only; OptimalLRC is covered by its generator and the planner.
- UniformLRC with z not dividing k + r: the generator is marked as unfinished there, and so its repair is not modelled (its placement is).
- The OptimalLRC and UniformLRC branches of `get_recovery_group_ids`, whose grouping differs from the placement.
- The split of decode factors over proxies in `multiBlockRecovery`, which is unfinished; any partition is covered instead.
- Repair of an AzureLRC global parity with z = 1, which takes the single-rack path, or with fewer than k / z + 1 global parities.
- MultiBlockDecoding.GetMultiDecodePlan: not every recoverable pattern is found by the source, because its candidate list is cut off; the contract says exactly which ones are.
- Encoder.GfVectMulInit: models the table variant for word sizes other than 64 bits, entry by entry; the 64-bit variant packs the same bytes into words.
- NodePlacement.PlaceBlocks: random draws are an arbitrary choice, and a loop that would draw nodes forever is `None`.
- ProxyRecovery.XorSlice: XORs byte by byte where the source takes eight bytes at a time.
- AppendRun.AppendSession.Append: proxies are run one after the other; their threads work on different files. A merge that the source starts in a detached thread is finished when the append is.
- CommitProtocol.WaitsAreRight: that waits end at all is not stated; a client that fails or gives up is not modelled.
- SetOperations.SubSet: not for an empty set of blocks, for which the encoder is called without a source and its kernels read one.
- Set and subset writes of UniformLRC with z not dividing k + r, for the same reason as the repair.
- AzureGlobalRepair.RecoverAzureGlobal: the row map is a finite map, and each rack's failure to read is not modelled.
- Blocks of the simulator are values: the field `map2cluster`, which only records where a block is, and the sharing of one object by two lists are not captured; `Stripe` is a value as well.
- The LC and GC cost terms, and the simulator's other schemes (`ran_*.py`, `aggregated.py`, `dispersed.py`).
- Files are byte sequences, and a datanode's write is atomic; sockets, RPC, threads and locks are steps of a protocol or left out.
- Integer overflow in sizes and offsets; the 32-bit layout of the parity log is modelled byte by byte.
- XML loading, deletion, `get`, degraded reads to clients, full-node recovery, the breakdown and timing variants, and the replacement of the failed node in the tables.
