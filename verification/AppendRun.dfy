/** Whole runs of appends that fill a stripe. At every point the data files are the striped layout of the bytes
    appended so far and the parity logs add up to their parity; the last append leaves the full parity blocks. */
module AppendRun {
  import opened Arithmetic
  import opened Field
  import opened LinearAlgebra
  import opened DecodePlanner
  import opened Striping
  import opened ParitySlices
  import opened AppendPlan
  import opened ParityLog

  /** The fixed parameters of a stripe; gen holds the generator rows of all blocks. */
  datatype Setup = Setup(g: Group, u: nat, blockSize: nat, mode: Mode, gen: Mat) {
    ghost predicate Valid() {
      && g.Valid() && u > 0 && 0 < blockSize < INT_LIMIT && blockSize % u == 0
      && IsMat(gen, g.k + g.r + g.z, g.k)
    }

    function Blocks(): nat { g.k + g.r + g.z }

    function Capacity(): nat { g.k * blockSize }
  }

  // ----- columns of the stripe

  /** The bytes that the data blocks have at offset x, 0 where a block does not reach that far. */
  function StripeColumn(stream: seq<byte>, k: nat, u: nat, x: nat): (c: Vec)
    requires k > 0 && u > 0
    ensures |c| == k
  {
    seq(k, j requires 0 <= j < k => if x < |Dealt(stream, k, u, j)| then Dealt(stream, k, u, j)[x] else 0)
  }

  /** The same for the bytes of the stream from o on only. */
  function AppendColumn(stream: seq<byte>, o: nat, k: nat, u: nat, x: nat): (c: Vec)
    requires k > 0 && u > 0
    ensures |c| == k
  {
    seq(k, j requires 0 <= j < k =>
      if Fill(k, u, j, o) <= x < |Dealt(stream, k, u, j)| then Dealt(stream, k, u, j)[x] else 0)
  }

  /** Each byte of a column belongs to exactly one append. */
  lemma ColumnGrows(stream: seq<byte>, o: nat, k: nat, u: nat, x: nat, j: nat)
    requires k > 0 && u > 0 && o <= |stream| && j < k
    ensures StripeColumn(stream, k, u, x)[j]
         == Add(StripeColumn(stream[..o], k, u, x)[j], AppendColumn(stream, o, k, u, x)[j])
  {
    hide Add, Dealt, Fill;
    DealtPrefix(stream, o, k, u, j);
    DealtLength(stream[..o], k, u, j);
    AddZero(StripeColumn(stream, k, u, x)[j]);
    AddZero(0);
  }

  /** Encoding is linear, so the parity of the longer stream is the old parity plus that of the append. */
  lemma ParityGrows(row: Vec, stream: seq<byte>, o: nat, k: nat, u: nat, x: nat)
    requires k > 0 && u > 0 && o <= |stream| && |row| == k
    ensures Dot(row, StripeColumn(stream, k, u, x), k)
         == Add(Dot(row, StripeColumn(stream[..o], k, u, x), k), Dot(row, AppendColumn(stream, o, k, u, x), k))
  {
    hide Add, Mul, Dot, StripeColumn, AppendColumn;
    var w, p, d := StripeColumn(stream, k, u, x), StripeColumn(stream[..o], k, u, x), AppendColumn(stream, o, k, u, x);
    forall j | 0 <= j < k ensures w[j] == Add(p[j], Mul(1, d[j])) {
      ColumnGrows(stream, o, k, u, x, j);
      MulOne(d[j]);
    }
    DotLinear(w, p, 1, d, row, k);
    DotComm(row, w, k);
    DotComm(row, p, k);
    DotComm(row, d, k);
    MulOne(Dot(d, row, k));
  }

  /** A byte of block j that an append wrote comes from a stream byte of that append. */
  lemma AppendedFrom(stream: seq<byte>, o: nat, k: nat, u: nat, x: nat, j: nat)
    requires k > 0 && u > 0 && j < k && Fill(k, u, j, o) <= x < |Dealt(stream, k, u, j)|
    ensures o <= StreamOffset(k, u, j, x) < |stream|
    ensures k * u > 0 && PhysicalOffset(k, u, StreamOffset(k, u, j, x)) == x
  {
    hide Fill, Dealt, StreamOffset, PhysicalOffset, BlockOf;
    var p := StreamOffset(k, u, j, x);
    StreamOffsetPlace(k, u, j, x);
    DealtFrom(stream, k, u, j, x);
    OffsetIsFill(k, u, p);
    if p < o {
      FillForward(k, u, j, p, 1);
      FillMonotone(k, u, j, p + 1, o);
    }
  }

  /** Outside its parity slice an append leaves the column alone. */
  lemma OutsideSlice(mode: Mode, stream: seq<byte>, o: nat, k: nat, u: nat, blockSize: nat, x: nat)
    requires k > 0 && u > 0 && o < |stream| <= k * blockSize && blockSize % u == 0
    requires var s := ParitySlice(mode, k, u, o, |stream| - o); !(s.offset <= x < s.offset + s.size)
    ensures IsZero(AppendColumn(stream, o, k, u, x))
  {
    hide Fill, Dealt, ParitySlice;
    forall j | 0 <= j < k ensures AppendColumn(stream, o, k, u, x)[j] == 0 {
      if Fill(k, u, j, o) <= x < |Dealt(stream, k, u, j)| {
        AppendedFrom(stream, o, k, u, x, j);
        ParityCovers(mode, k, u, o, |stream| - o, blockSize, StreamOffset(k, u, j, x));
      }
    }
  }

  // ----- what an append hands to each block

  /** The producer's contract: a data slice is the block's share of the append's bytes, a parity slice is the encoding
      of the append's bytes alone over the slice's offsets. */
  ghost predicate RightSlice(c: Setup, stream: seq<byte>, o: nat, b: nat, buf: seq<byte>)
    requires c.Valid() && o < |stream| <= c.Capacity() && b < c.Blocks()
  {
    if b < c.g.k then
      Dealt(stream[..o], c.g.k, c.u, b) + buf == Dealt(stream, c.g.k, c.u, b)
    else
      var s := ParitySlice(c.mode, c.g.k, c.u, o, |stream| - o);
      && |buf| == s.size
      && forall t :: 0 <= t < |buf| ==> buf[t] == Dot(c.gen[b], AppendColumn(stream, o, c.g.k, c.u, s.offset + t), c.g.k)
  }

  /** What a parity slice adds to any byte of the block. */
  lemma SliceContribution(c: Setup, stream: seq<byte>, o: nat, b: nat, buf: seq<byte>, x: nat)
    requires c.Valid() && o < |stream| <= c.Capacity() && c.g.k <= b < c.Blocks()
    requires RightSlice(c, stream, o, b, buf)
    ensures SliceByte(LoggedSlice(ParitySlice(c.mode, c.g.k, c.u, o, |stream| - o).offset, buf), x)
         == Dot(c.gen[b], AppendColumn(stream, o, c.g.k, c.u, x), c.g.k)
  {
    hide Dot, AppendColumn, ParitySlice;
    var s := ParitySlice(c.mode, c.g.k, c.u, o, |stream| - o);
    if s.offset <= x < s.offset + s.size {
      assert buf[x - s.offset] == Dot(c.gen[b], AppendColumn(stream, o, c.g.k, c.u, s.offset + (x - s.offset)), c.g.k);
    } else {
      OutsideSlice(c.mode, stream, o, c.g.k, c.u, c.blockSize, x);
      DotZero(c.gen[b], AppendColumn(stream, o, c.g.k, c.u, x), c.g.k);
    }
  }

  // ----- what the files of a block hold

  function FileOf(files: map<nat, seq<byte>>, b: nat): Option<seq<byte>> {
    if b in files then Some(files[b]) else None
  }

  ghost predicate DataOk(c: Setup, file: Option<seq<byte>>, b: nat, stream: seq<byte>)
    requires c.Valid()
  {
    && (file.Some? <==> Fill(c.g.k, c.u, b, |stream|) > 0)
    && (file.Some? ==> file.value == Dealt(stream, c.g.k, c.u, b))
  }

  /** The log's slices add up to the parity of the stream so far. */
  ghost predicate LogOk(c: Setup, b: nat, stream: seq<byte>, log: seq<LoggedSlice>)
    requires c.Valid() && b < c.Blocks()
  {
    && AllWritable(log)
    && (forall i :: 0 <= i < |log| ==> WithinBlock(log[i], c.blockSize))
    && forall x: nat :: x < c.blockSize ==>
         MergedByte(log, x) == Dot(c.gen[b], StripeColumn(stream, c.g.k, c.u, x), c.g.k)
  }

  ghost predicate IsParity(c: Setup, b: nat, stream: seq<byte>, f: seq<byte>)
    requires c.Valid() && b < c.Blocks()
  {
    && |f| == c.blockSize
    && forall x: nat :: x < c.blockSize ==> f[x] == Dot(c.gen[b], StripeColumn(stream, c.g.k, c.u, x), c.g.k)
  }

  ghost predicate IsLog(c: Setup, b: nat, stream: seq<byte>, log: seq<LoggedSlice>, f: seq<byte>)
    requires c.Valid() && b < c.Blocks()
  {
    LogOk(c, b, stream, log) && f == SerializedAll(log)
  }

  /** A parity file is a log of slices while the stripe fills up, and a plain block once it is full: never a mix. */
  ghost predicate ParityOk(c: Setup, file: Option<seq<byte>>, b: nat, stream: seq<byte>, log: seq<LoggedSlice>)
    requires c.Valid() && b < c.Blocks()
  {
    if stream == [] then file.None? && log == []
    else
      && file.Some?
      && if |stream| < c.Capacity() then IsLog(c, b, stream, log, file.value) else IsParity(c, b, stream, file.value)
  }

  ghost predicate BlockOk(c: Setup, file: Option<seq<byte>>, b: nat, stream: seq<byte>, log: seq<LoggedSlice>)
    requires c.Valid() && b < c.Blocks()
  {
    if b < c.g.k then DataOk(c, file, b, stream) else ParityOk(c, file, b, stream, log)
  }

  lemma EmptyColumn(k: nat, u: nat, x: nat)
    requires k > 0 && u > 0
    ensures IsZero(StripeColumn([], k, u, x))
  {
  }

  lemma EmptyLogOk(c: Setup, b: nat)
    requires c.Valid() && b < c.Blocks()
    ensures LogOk(c, b, [], [])
  {
    hide Dot, StripeColumn;
    forall x: nat | x < c.blockSize ensures MergedByte([], x) == Dot(c.gen[b], StripeColumn([], c.g.k, c.u, x), c.g.k) {
      EmptyColumn(c.g.k, c.u, x);
      DotZero(c.gen[b], StripeColumn([], c.g.k, c.u, x), c.g.k);
    }
  }

  lemma SliceFits(c: Setup, stream: seq<byte>, o: nat, b: nat, buf: seq<byte>)
    requires c.Valid() && o < |stream| <= c.Capacity() && c.g.k <= b < c.Blocks() && RightSlice(c, stream, o, b, buf)
    ensures var s := LoggedSlice(ParitySlice(c.mode, c.g.k, c.u, o, |stream| - o).offset, buf);
      Writable(s) && WithinBlock(s, c.blockSize)
  {
    hide ParitySlice, Dot;
    ParityCovers(c.mode, c.g.k, c.u, o, |stream| - o, c.blockSize, o);
  }

  /** One more slice keeps the log in step with the stream. */
  lemma LogGrows(c: Setup, b: nat, stream: seq<byte>, o: nat, log: seq<LoggedSlice>, buf: seq<byte>)
    requires c.Valid() && o < |stream| <= c.Capacity() && c.g.k <= b < c.Blocks()
    requires LogOk(c, b, stream[..o], log) && RightSlice(c, stream, o, b, buf)
    ensures var s := LoggedSlice(ParitySlice(c.mode, c.g.k, c.u, o, |stream| - o).offset, buf);
      && Writable(s) && LogOk(c, b, stream, log + [s])
      && SerializedAll(log + [s]) == SerializedAll(log) + Record(s)
  {
    hide Dot, Add, StripeColumn, ParitySlice, SliceByte, RightSlice, Record, Writable, WithinBlock;
    var s := LoggedSlice(ParitySlice(c.mode, c.g.k, c.u, o, |stream| - o).offset, buf);
    SliceFits(c, stream, o, b, buf);
    SerializedPush(log, s);
    forall x: nat | x < c.blockSize
      ensures MergedByte(log + [s], x) == Dot(c.gen[b], StripeColumn(stream, c.g.k, c.u, x), c.g.k)
    {
      SliceContribution(c, stream, o, b, buf, x);
      ParityGrows(c.gen[b], stream, o, c.g.k, c.u, x);
      assert (log + [s])[..|log|] == log;
    }
  }

  lemma FirstByte(k: nat, u: nat)
    requires k > 0 && u > 0
    ensures StreamOffset(k, u, 0, 0) == 0
  {
    DivModUnique(0, u, 0, 0);
  }

  /** An append of the whole stripe has its parity slice cover the whole block. */
  lemma WholeSlice(c: Setup, stream: seq<byte>)
    requires c.Valid() && |stream| == c.Capacity() > 0
    ensures ParitySlice(c.mode, c.g.k, c.u, 0, |stream|) == Slice(c.blockSize, 0)
  {
    hide ParitySlice, Fill, StreamOffset, PhysicalOffset, BlockOf;
    var k, u := c.g.k, c.u;
    var p := StreamOffset(k, u, 0, c.blockSize - 1);
    StreamOffsetPlace(k, u, 0, c.blockSize - 1);
    OffsetIsFill(k, u, p);
    FillFull(k, u, 0, c.blockSize);
    if p >= |stream| {
      FillMonotone(k, u, 0, |stream|, p);
    }
    ParityCovers(c.mode, k, u, 0, |stream|, c.blockSize, p);
    StreamOffsetPlace(k, u, 0, 0);
    FirstByte(k, u);
    ParityCovers(c.mode, k, u, 0, |stream|, c.blockSize, 0);
  }

  lemma RawParity(c: Setup, b: nat, stream: seq<byte>, buf: seq<byte>)
    requires c.Valid() && |stream| == c.Capacity() > 0 && c.g.k <= b < c.Blocks() && RightSlice(c, stream, 0, b, buf)
    ensures IsParity(c, b, stream, buf)
  {
    hide Dot, ParitySlice, Fill, Dealt;
    WholeSlice(c, stream);
    forall x: nat | x < c.blockSize ensures buf[x] == Dot(c.gen[b], StripeColumn(stream, c.g.k, c.u, x), c.g.k) {
      forall j: nat | j < c.g.k ensures Fill(c.g.k, c.u, j, 0) == 0 {
        FillZero(c.g.k, c.u, j);
      }
      assert AppendColumn(stream, 0, c.g.k, c.u, x) == StripeColumn(stream, c.g.k, c.u, x);
    }
  }

  // ----- one slice at a datanode

  /** What a block's file holds once its slice of the append is written, before any merge. */
  ghost predicate Sent(c: Setup, file: Option<seq<byte>>, b: nat, stream: seq<byte>, log: seq<LoggedSlice>, serialized: bool)
    requires c.Valid() && b < c.Blocks()
  {
    if b < c.g.k then DataOk(c, file, b, stream)
    else file.Some? && if serialized then IsLog(c, b, stream, log, file.value) else IsParity(c, b, stream, file.value)
  }

  /** The log of a parity block after one more slice. */
  function Logged(c: Setup, b: nat, o: nat, a: nat, log: seq<LoggedSlice>, buf: seq<byte>): seq<LoggedSlice>
    requires c.g.k > 0 && c.u > 0 && a > 0
  {
    if b < c.g.k then log else log + [LoggedSlice(ParitySlice(c.mode, c.g.k, c.u, o, a).offset, buf)]
  }

  lemma DataGrows(c: Setup, b: nat, stream: seq<byte>, o: nat, buf: seq<byte>, file: Option<seq<byte>>)
    requires c.Valid() && o < |stream| <= c.Capacity() && b < c.g.k && Gets(c.g, c.u, o, |stream| - o, b)
    requires RightSlice(c, stream, o, b, buf) && DataOk(c, file, b, stream[..o])
    ensures DataOk(c, Some((if file.Some? then file.value else []) + buf), b, stream)
    ensures SliceOf(c.mode, c.g.k, c.u, o, |stream| - o, b).offset == 0 ==> file.None?
  {
    hide Fill, ParitySlice;
    DealtLength(stream[..o], c.g.k, c.u, b);
    if file.None? {
      assert Dealt(stream[..o], c.g.k, c.u, b) == [];
      assert [] + buf == buf;
    }
  }

  /** The two handlers of a datanode. The handler's assertion about existing files never fails. */
  method HandleAppend(c: Setup, storage: Storage, b: nat, offset: nat, buf: seq<byte>, serialized: bool,
      ghost stream: seq<byte>, ghost o: nat, ghost log: seq<LoggedSlice>)
    returns (ok: bool)
    requires c.Valid() && o < |stream| <= c.Capacity() && b < c.Blocks() && Gets(c.g, c.u, o, |stream| - o, b)
    requires RightSlice(c, stream, o, b, buf)
    requires BlockOk(c, FileOf(storage.files, b), b, stream[..o], log)
    requires offset == SliceOf(c.mode, c.g.k, c.u, o, |stream| - o, b).offset
    requires serialized == !WholeStripe(c.g, c.blockSize, o, |stream| - o)
    modifies storage
    ensures ok && Sent(c, FileOf(storage.files, b), b, stream, Logged(c, b, o, |stream| - o, log, buf), serialized)
    ensures forall b2 :: b2 != b ==> FileOf(storage.files, b2) == FileOf(old(storage.files), b2)
  {
    hide RightSlice, DataOk, IsLog, IsParity, LogOk, ParitySlice, Fill, Record, Writable;
    ghost var file := FileOf(storage.files, b);
    ok := true;
    if b < c.g.k {
      DataGrows(c, b, stream, o, buf, file);
      ok := storage.AppendData(b, offset, buf);
    } else {
      var slice := LoggedSlice(offset, buf);
      SliceFits(c, stream, o, b, buf);
      if serialized {
        LogStep(c, b, stream, o, log, buf, file);
      } else {
        RawParity(c, b, stream, buf);
        assert [] + buf == buf;
      }
      storage.AppendParity(b, slice, serialized);
    }
  }

  lemma LogStep(c: Setup, b: nat, stream: seq<byte>, o: nat, log: seq<LoggedSlice>, buf: seq<byte>, file: Option<seq<byte>>)
    requires c.Valid() && o < |stream| <= c.Capacity() && c.g.k <= b < c.Blocks() && RightSlice(c, stream, o, b, buf)
    requires ParityOk(c, file, b, stream[..o], log)
    ensures var s := LoggedSlice(ParitySlice(c.mode, c.g.k, c.u, o, |stream| - o).offset, buf);
      Writable(s) && IsLog(c, b, stream, log + [s], (if file.Some? then file.value else []) + Record(s))
  {
    hide RightSlice, LogOk, ParitySlice, Record, Writable;
    if o == 0 {
      assert stream[..o] == [];
      EmptyLogOk(c, b);
      assert SerializedAll([]) == [];
    }
    LogGrows(c, b, stream, o, log, buf);
  }

  /** Merging a full log gives the parity block; the merge's assertions never fail. */
  method HandleMerge(c: Setup, storage: Storage, b: nat, ghost stream: seq<byte>, ghost log: seq<LoggedSlice>) returns (ok: bool)
    requires c.Valid() && c.g.k <= b < c.Blocks()
    requires b in storage.files && IsLog(c, b, stream, log, storage.files[b])
    modifies storage
    ensures ok && b in storage.files && IsParity(c, b, stream, storage.files[b])
    ensures forall b2 :: b2 != b ==> FileOf(storage.files, b2) == FileOf(old(storage.files), b2)
  {
    hide Dot, StripeColumn, MergedByte, Parsed, SerializedAll, WithinBlock;
    ParsedSerialized(log);
    ok := storage.MergeParity(b, c.blockSize);
  }

  // ----- one cluster's proxy

  ghost predicate AllRight(c: Setup, stream: seq<byte>, o: nat, ids: seq<nat>, slices: seq<seq<byte>>)
    requires c.Valid() && o < |stream| <= c.Capacity()
  {
    && |slices| == |ids|
    && forall j :: 0 <= j < |ids| ==> ids[j] < c.Blocks() && RightSlice(c, stream, o, ids[j], slices[j])
  }

  ghost predicate BlocksOk(c: Setup, files: map<nat, seq<byte>>, ids: seq<nat>, stream: seq<byte>, logs: map<nat, seq<LoggedSlice>>)
    requires c.Valid()
  {
    forall b :: b in ids ==> b < c.Blocks() && b in logs && BlockOk(c, FileOf(files, b), b, stream, logs[b])
  }

  ghost predicate AllSent(c: Setup, files: map<nat, seq<byte>>, ids: seq<nat>, stream: seq<byte>,
      logs: map<nat, seq<LoggedSlice>>, serialized: bool)
    requires c.Valid()
  {
    forall b :: b in ids ==> b < c.Blocks() && b in logs && Sent(c, FileOf(files, b), b, stream, logs[b], serialized)
  }

  ghost predicate OthersKept(before: map<nat, seq<byte>>, after: map<nat, seq<byte>>, ids: seq<nat>) {
    forall b :: b !in ids ==> FileOf(after, b) == FileOf(before, b)
  }

  ghost predicate LogsKept(before: map<nat, seq<LoggedSlice>>, after: map<nat, seq<LoggedSlice>>, ids: seq<nat>) {
    after.Keys == before.Keys && forall b :: b in before && b !in ids ==> after[b] == before[b]
  }

  lemma NotYet(ids: seq<nat>, j: nat)
    requires Ascending(ids) && j < |ids|
    ensures ids[j] !in ids[..j] && ids[..j + 1] == ids[..j] + [ids[j]]
  {
  }

  lemma PlanEntry(c: Setup, plan: ClusterPlan, i: nat, o: nat, a: nat, j: nat)
    requires c.Valid() && a > 0 && i < c.g.z && IsPlan(plan, c.mode, c.g, c.u, c.blockSize, o, a, i)
    requires j < |plan.blockIds|
    ensures j < |plan.offsets| && plan.offsets[j] == SliceOf(c.mode, c.g.k, c.u, o, a, plan.blockIds[j]).offset
    ensures Gets(c.g, c.u, o, a, plan.blockIds[j])
  {
    hide SliceOf, PlanBlocks, Gets, InGroup;
    PlanMembers(c.g, c.u, o, a, i);
    assert plan.blockIds[j] in plan.blockIds;
  }

  /** A proxy hands each slice of its plan to the datanode of its block. */
  method SendSlices(c: Setup, storage: Storage, plan: ClusterPlan, slices: seq<seq<byte>>, ghost i: nat,
      ghost stream: seq<byte>, ghost o: nat, ghost logs: map<nat, seq<LoggedSlice>>)
    returns (ok: bool, ghost newLogs: map<nat, seq<LoggedSlice>>)
    requires c.Valid() && o < |stream| <= c.Capacity() && i < c.g.z
    requires IsPlan(plan, c.mode, c.g, c.u, c.blockSize, o, |stream| - o, i)
    requires AllRight(c, stream, o, plan.blockIds, slices)
    requires BlocksOk(c, storage.files, plan.blockIds, stream[..o], logs)
    modifies storage
    ensures ok && AllSent(c, storage.files, plan.blockIds, stream, newLogs, plan.isSerialized)
    ensures OthersKept(old(storage.files), storage.files, plan.blockIds) && LogsKept(logs, newLogs, plan.blockIds)
  {
    hide RightSlice, BlockOk, Sent, FileOf, SliceOf, PlanBlocks, Gets, InGroup, Logged, Ascending, PlanLists;
    PlanMembers(c.g, c.u, o, |stream| - o, i);
    var ids := plan.blockIds;
    newLogs := logs;
    ok := true;
    ghost var files0 := storage.files;
    for j := 0 to |ids|
      invariant ok && SentUpTo(c, files0, storage.files, ids, stream, logs, newLogs, plan.isSerialized, j)
    {
      var b := ids[j];
      NotYet(ids, j);
      PlanEntry(c, plan, i, o, |stream| - o, j);
      ghost var files, log := storage.files, Logged(c, b, o, |stream| - o, logs[b], slices[j]);
      NotYetSent(c, files0, files, ids, stream, logs, newLogs, plan.isSerialized, j);
      var done := HandleAppend(c, storage, b, plan.offsets[j], slices[j], plan.isSerialized, stream, o, logs[b]);
      SentNext(c, files0, files, storage.files, ids, stream, logs, newLogs, plan.isSerialized, j, log);
      ok := ok && done;
      newLogs := newLogs[b := log];
    }
    assert ids[..|ids|] == ids;
  }

  /** The first j slices are with their datanodes; nothing else has changed. */
  ghost predicate SentUpTo(c: Setup, before: map<nat, seq<byte>>, files: map<nat, seq<byte>>, ids: seq<nat>, stream: seq<byte>,
      logs: map<nat, seq<LoggedSlice>>, newLogs: map<nat, seq<LoggedSlice>>, serialized: bool, j: nat)
    requires c.Valid() && j <= |ids|
  {
    && newLogs.Keys == logs.Keys && (forall b :: b in ids ==> b in logs && b < c.Blocks())
    && (forall l :: 0 <= l < j ==> Sent(c, FileOf(files, ids[l]), ids[l], stream, newLogs[ids[l]], serialized))
    && (forall b :: b !in ids[..j] ==> FileOf(files, b) == FileOf(before, b))
    && forall b :: b in logs && b !in ids[..j] ==> newLogs[b] == logs[b]
  }

  lemma NotYetSent(c: Setup, before: map<nat, seq<byte>>, files: map<nat, seq<byte>>, ids: seq<nat>, stream: seq<byte>,
      logs: map<nat, seq<LoggedSlice>>, newLogs: map<nat, seq<LoggedSlice>>, serialized: bool, j: nat)
    requires c.Valid() && j < |ids| && SentUpTo(c, before, files, ids, stream, logs, newLogs, serialized, j)
    requires ids[j] !in ids[..j]
    ensures FileOf(files, ids[j]) == FileOf(before, ids[j])
  {
    hide FileOf, Sent;
  }

  lemma SentNext(c: Setup, before: map<nat, seq<byte>>, files: map<nat, seq<byte>>, after: map<nat, seq<byte>>,
      ids: seq<nat>, stream: seq<byte>, logs: map<nat, seq<LoggedSlice>>, newLogs: map<nat, seq<LoggedSlice>>,
      serialized: bool, j: nat, log: seq<LoggedSlice>)
    requires c.Valid() && j < |ids| && SentUpTo(c, before, files, ids, stream, logs, newLogs, serialized, j)
    requires ids[j] !in ids[..j] && ids[..j + 1] == ids[..j] + [ids[j]]
    requires ids[j] < c.Blocks() && Sent(c, FileOf(after, ids[j]), ids[j], stream, log, serialized)
    requires forall b :: b != ids[j] ==> FileOf(after, b) == FileOf(files, b)
    ensures SentUpTo(c, before, after, ids, stream, logs, newLogs[ids[j] := log], serialized, j + 1)
  {
    hide FileOf, Sent;
    assert forall l :: 0 <= l < j ==> ids[l] in ids[..j];
  }

  /** A full stripe's logs are merged, one parity block after the other. */
  method MergeAll(c: Setup, storage: Storage, ids: seq<nat>, ghost stream: seq<byte>, ghost logs: map<nat, seq<LoggedSlice>>)
    returns (ok: bool)
    requires c.Valid() && |stream| == c.Capacity() > 0 && Ascending(ids)
    requires AllSent(c, storage.files, ids, stream, logs, true)
    modifies storage
    ensures ok && BlocksOk(c, storage.files, ids, stream, logs)
    ensures OthersKept(old(storage.files), storage.files, ids)
  {
    hide DataOk, IsLog, IsParity, Ascending;
    ok := true;
    assert forall j :: 0 <= j < |ids| ==> ids[j] in ids;
    for j := 0 to |ids|
      invariant ok
      invariant forall l :: 0 <= l < j ==> BlockOk(c, FileOf(storage.files, ids[l]), ids[l], stream, logs[ids[l]])
      invariant forall b :: b !in ids[..j] ==> FileOf(storage.files, b) == FileOf(old(storage.files), b)
    {
      var b := ids[j];
      NotYet(ids, j);
      if b >= c.g.k {
        var merged := HandleMerge(c, storage, b, stream, logs[b]);
        ok := ok && merged;
      }
    }
    assert ids[..|ids|] == ids;
  }

  /** A proxy's whole share of an append: send the slices, then ask for the merge if the plan says so. */
  method ProxyAppend(c: Setup, storage: Storage, plan: ClusterPlan, slices: seq<seq<byte>>, ghost i: nat,
      ghost stream: seq<byte>, ghost o: nat, ghost logs: map<nat, seq<LoggedSlice>>)
    returns (ok: bool, ghost newLogs: map<nat, seq<LoggedSlice>>)
    requires c.Valid() && o < |stream| <= c.Capacity() && i < c.g.z
    requires IsPlan(plan, c.mode, c.g, c.u, c.blockSize, o, |stream| - o, i)
    requires AllRight(c, stream, o, plan.blockIds, slices)
    requires BlocksOk(c, storage.files, plan.blockIds, stream[..o], logs)
    modifies storage
    ensures ok && BlocksOk(c, storage.files, plan.blockIds, stream, newLogs)
    ensures OthersKept(old(storage.files), storage.files, plan.blockIds) && LogsKept(logs, newLogs, plan.blockIds)
  {
    hide DataOk, IsLog, IsParity, SliceOf, PlanBlocks, AllRight, InGroup, Gets;
    PlanMembers(c.g, c.u, o, |stream| - o, i);
    ok, newLogs := SendSlices(c, storage, plan, slices, i, stream, o, logs);
    if plan.isMergeParity {
      var merged := MergeAll(c, storage, plan.blockIds, stream, newLogs);
      ok := ok && merged;
    }
  }

  // ----- all clusters

  /** Block b belongs to a group before i. */
  predicate Before(g: Group, b: nat, i: nat)
    requires g.z > 0
  {
    b < g.DataLo(i) || g.k <= b < g.GlobalLo(i) || g.k + g.r <= b < g.LocalLo(i)
  }

  lemma BeforeStep(g: Group, b: nat, i: nat)
    requires g.Valid() && i < g.z
    ensures Before(g, b, i + 1) <==> Before(g, b, i) || InGroup(g, b, i)
    ensures !(Before(g, b, i) && InGroup(g, b, i))
    ensures InGroup(g, b, i) ==> b < g.k + g.r + g.z
  {
    hide Group.DataLo, Group.GlobalLo, Group.LocalLo;
    GroupRanges(g, i);
  }

  lemma BeforeEnds(g: Group, b: nat)
    requires g.Valid() && b < g.k + g.r + g.z
    ensures !Before(g, b, 0) && Before(g, b, g.z)
  {
    GroupEnds(g);
    DivModUnique(0, g.z, 0, 0);
    DivExact(g.z, g.r, g.z);
    DivModUnique(g.z * g.z, g.z, g.z, 0);
  }

  /** A data block that gets no slice is left as it is, rightly so. */
  lemma Untouched(c: Setup, b: nat, stream: seq<byte>, o: nat, file: Option<seq<byte>>)
    requires c.Valid() && o < |stream| && b < c.g.k && !Gets(c.g, c.u, o, |stream| - o, b)
    requires DataOk(c, file, b, stream[..o])
    ensures DataOk(c, file, b, stream)
  {
    hide Fill, Dealt;
    FillMonotone(c.g.k, c.u, b, o, |stream|);
    DealtPrefix(stream, o, c.g.k, c.u, b);
    DealtLength(stream, c.g.k, c.u, b);
    DealtLength(stream[..o], c.g.k, c.u, b);
  }

  /** The blocks of the groups before i have the new stream, the others still the old one. */
  ghost predicate Progress(c: Setup, files: map<nat, seq<byte>>, stream: seq<byte>, o: nat, i: nat,
      logs: map<nat, seq<LoggedSlice>>, newLogs: map<nat, seq<LoggedSlice>>)
    requires c.Valid() && o <= |stream|
  {
    forall b: nat :: b < c.Blocks() ==>
      && b in logs && b in newLogs
      && if Before(c.g, b, i) then BlockOk(c, FileOf(files, b), b, stream, newLogs[b])
         else newLogs[b] == logs[b] && BlockOk(c, FileOf(files, b), b, stream[..o], logs[b])
  }

  lemma PlanFacts(c: Setup, plan: ClusterPlan, i: nat, o: nat, a: nat)
    requires c.Valid() && a > 0 && i < c.g.z && IsPlan(plan, c.mode, c.g, c.u, c.blockSize, o, a, i)
    ensures plan.blockIds == PlanBlocks(c.g, c.u, o, o + a, i)
    ensures plan.isMergeParity == (o + a == c.blockSize * c.g.k && !WholeStripe(c.g, c.blockSize, o, a))
  {
    hide PlanBlocks, PlanLists, Sum;
  }

  method ClusterAppend(c: Setup, storage: Storage, plan: ClusterPlan, slices: seq<seq<byte>>, ghost i: nat,
      ghost stream: seq<byte>, ghost o: nat, ghost logs: map<nat, seq<LoggedSlice>>, ghost logs1: map<nat, seq<LoggedSlice>>)
    returns (ok: bool, ghost newLogs: map<nat, seq<LoggedSlice>>)
    requires c.Valid() && o < |stream| <= c.Capacity() && i < c.g.z
    requires IsPlan(plan, c.mode, c.g, c.u, c.blockSize, o, |stream| - o, i)
    requires AllRight(c, stream, o, plan.blockIds, slices)
    requires Progress(c, storage.files, stream, o, i, logs, logs1)
    modifies storage
    ensures ok && Progress(c, storage.files, stream, o, i + 1, logs, newLogs)
  {
    hide FileOf, BlockOk, Before, InGroup, Gets, PlanBlocks, AllRight, IsPlan;
    ghost var a := |stream| - o;
    ghost var ids := plan.blockIds;
    PlanFacts(c, plan, i, o, a);
    PlanMembers(c.g, c.u, o, a, i);
    forall b: nat ensures b in ids ==> b < c.Blocks() && !Before(c.g, b, i) && Before(c.g, b, i + 1) {
      BeforeStep(c.g, b, i);
    }
    ghost var files := storage.files;
    ok, newLogs := ProxyAppend(c, storage, plan, slices, i, stream, o, logs1);
    forall b: nat | b < c.Blocks()
      ensures b in newLogs
      ensures if Before(c.g, b, i + 1) then BlockOk(c, FileOf(storage.files, b), b, stream, newLogs[b])
        else newLogs[b] == logs[b] && BlockOk(c, FileOf(storage.files, b), b, stream[..o], logs[b])
    {
      BeforeStep(c.g, b, i);
      if b !in ids && InGroup(c.g, b, i) {
        Skipped(c, b, stream, o, FileOf(storage.files, b), logs1[b]);
      }
    }
  }

  lemma Skipped(c: Setup, b: nat, stream: seq<byte>, o: nat, file: Option<seq<byte>>, log: seq<LoggedSlice>)
    requires c.Valid() && o < |stream| && b < c.Blocks() && !Gets(c.g, c.u, o, |stream| - o, b)
    requires BlockOk(c, file, b, stream[..o], log)
    ensures BlockOk(c, file, b, stream, log)
  {
    hide Fill, DataOk;
    Untouched(c, b, stream, o, file);
  }

  // ----- a run

  /** All files of the stripe are right for the bytes appended so far. */
  ghost predicate StripeOk(c: Setup, files: map<nat, seq<byte>>, stream: seq<byte>, logs: map<nat, seq<LoggedSlice>>)
    requires c.Valid()
  {
    forall b: nat :: b < c.Blocks() ==> b in logs && BlockOk(c, FileOf(files, b), b, stream, logs[b])
  }

  function EmptyLogs(n: nat): (logs: map<nat, seq<LoggedSlice>>)
    ensures forall b: nat :: b < n ==> b in logs && logs[b] == []
  {
    if n == 0 then map[] else EmptyLogs(n - 1)[n - 1 := []]
  }

  /** The striped layout: each byte of the stream is in its data file at its offset, and each byte there is one of the stream. */
  ghost predicate Striped(files: map<nat, seq<byte>>, stream: seq<byte>, k: nat, u: nat)
    requires k > 0 && u > 0
  {
    && (forall p: nat :: p < |stream| ==> ByteStored(files, k, u, p, stream[p]))
    && forall b: nat, x: nat :: b < k && b in files && x < |files[b]| ==> StoredByte(stream, k, u, b, x, files[b][x])
  }

  ghost predicate ByteStored(files: map<nat, seq<byte>>, k: nat, u: nat, p: nat, v: byte)
    requires k > 0 && u > 0
  {
    var b, x := p / u % k, p / (k * u) * u + p % u;
    b in files && x < |files[b]| && files[b][x] == v
  }

  ghost predicate StoredByte(stream: seq<byte>, k: nat, u: nat, b: nat, x: nat, v: byte)
    requires k > 0 && u > 0
  {
    var p := (x / u * k + b) * u + x % u;
    p < |stream| && stream[p] == v
  }

  lemma FilesStriped(c: Setup, files: map<nat, seq<byte>>, stream: seq<byte>, logs: map<nat, seq<LoggedSlice>>)
    requires c.Valid() && StripeOk(c, files, stream, logs)
    ensures Striped(files, stream, c.g.k, c.u)
  {
    hide Fill, Dealt, ByteStored, StoredByte, BlockOf, PhysicalOffset;
    forall p: nat | p < |stream| ensures ByteStored(files, c.g.k, c.u, p, stream[p]) {
      ByteIsStored(c, files, stream, logs, p);
    }
    forall b: nat, x: nat | b < c.g.k && b in files && x < |files[b]| ensures StoredByte(stream, c.g.k, c.u, b, x, files[b][x]) {
      DataFile(c, files, stream, logs, b);
      DealtFrom(stream, c.g.k, c.u, b, x);
      StoredIs(stream, c.g.k, c.u, b, x, files[b][x]);
    }
  }

  lemma StoredIs(stream: seq<byte>, k: nat, u: nat, b: nat, x: nat, v: byte)
    requires k > 0 && u > 0 && StreamOffset(k, u, b, x) < |stream| && stream[StreamOffset(k, u, b, x)] == v
    ensures StoredByte(stream, k, u, b, x, v)
  {
  }

  lemma DataFile(c: Setup, files: map<nat, seq<byte>>, stream: seq<byte>, logs: map<nat, seq<LoggedSlice>>, b: nat)
    requires c.Valid() && StripeOk(c, files, stream, logs) && b < c.g.k
    ensures b in files <==> |Dealt(stream, c.g.k, c.u, b)| > 0
    ensures b in files ==> files[b] == Dealt(stream, c.g.k, c.u, b)
  {
    hide Fill, Dealt;
    assert BlockOk(c, FileOf(files, b), b, stream, logs[b]);
    DealtLength(stream, c.g.k, c.u, b);
  }

  lemma ByteIsStored(c: Setup, files: map<nat, seq<byte>>, stream: seq<byte>, logs: map<nat, seq<LoggedSlice>>, p: nat)
    requires c.Valid() && StripeOk(c, files, stream, logs) && p < |stream|
    ensures ByteStored(files, c.g.k, c.u, p, stream[p])
  {
    hide Dealt, StripeOk, BlockOf, PhysicalOffset;
    var b := BlockOf(c.g.k, c.u, p);
    PlaceOf(c.g.k, c.u, p);
    OffsetIsFill(c.g.k, c.u, p);
    hide Fill;
    DealtAt(stream, p, c.g.k, c.u, b, PhysicalOffset(c.g.k, c.u, p));
    DataFile(c, files, stream, logs, b);
  }

  /** One stripe that a client fills by appends. */
  class AppendSession {
    const c: Setup
    const storage: Storage
    /** The coordinator's logical offset within the stripe. */
    var offset: nat
    /** How many appends asked for a parity merge. */
    var mergeRequests: nat
    ghost var appends: nat
    ghost var stream: seq<byte>
    ghost var logs: map<nat, seq<LoggedSlice>>

    ghost predicate Valid()
      reads this, storage
    {
      && c.Valid() && offset == |stream| <= c.Capacity()
      && (appends == 0 <==> offset == 0)
      && mergeRequests == (if offset == c.Capacity() && appends >= 2 then 1 else 0)
      && StripeOk(c, storage.files, stream, logs)
    }

    constructor (c: Setup)
      requires c.Valid()
      ensures Valid() && this.c == c && stream == [] && fresh(storage)
    {
      this.c := c;
      storage := new Storage();
      offset, mergeRequests, appends, stream := 0, 0, 0, [];
      logs := EmptyLogs(c.Blocks());
      new;
      forall b: nat | b < c.Blocks() ensures BlockOk(c, FileOf(storage.files, b), b, [], []) {
        if b < c.g.k {
          FillZero(c.g.k, c.u, b);
        }
      }
    }

    /** One append of the bytes `chunk`, as every cluster's slices. No assertion of the source can fail on the way,
        and a merge is asked for exactly by the last of two or more appends. */
    method Append(a: nat, slices: seq<seq<seq<byte>>>, ghost chunk: seq<byte>) returns (ok: bool)
      requires Valid() && a == |chunk| > 0 && offset + a <= c.Capacity()
      requires |slices| == c.g.z
      requires forall i :: 0 <= i < c.g.z ==>
        AllRight(c, stream + chunk, offset, PlanBlocks(c.g, c.u, offset, offset + a, i), slices[i])
      modifies this, storage
      ensures Valid() && ok && stream == old(stream) + chunk && appends == old(appends) + 1
      ensures Striped(storage.files, stream, c.g.k, c.u)
    {
      hide BlockOk, FileOf, AllRight, IsPlan, Before, PlanBlocks, HoldsSlices, Striped;
      ghost var whole, o := stream + chunk, offset;
      assert whole[..o] == stream;
      var plans := GenerateAppendPlan(c.mode, c.g, c.u, c.blockSize, offset, a);
      forall b: nat | b < c.Blocks() ensures !Before(c.g, b, 0) && Before(c.g, b, c.g.z) {
        BeforeEnds(c.g, b);
      }
      ok := true;
      ghost var newLogs := logs;
      var merging := false;
      for i := 0 to c.g.z
        invariant ok && Progress(c, storage.files, whole, o, i, logs, newLogs)
        invariant unchanged(this)
        invariant merging == (i > 0 && o + a == c.Capacity() && !WholeStripe(c.g, c.blockSize, o, a))
      {
        PlanFacts(c, plans[i], i, o, a);
        var done;
        done, newLogs := ClusterAppend(c, storage, plans[i], slices[i], i, whole, o, logs, newLogs);
        ok := ok && done;
        merging := plans[i].isMergeParity;
      }
      offset := offset + a;
      if merging {
        mergeRequests := mergeRequests + 1;
      }
      stream, appends, logs := whole, appends + 1, newLogs;
      FilesStriped(c, storage.files, stream, logs);
    }
  }

  lemma FullData(c: Setup, files: map<nat, seq<byte>>, stream: seq<byte>, logs: map<nat, seq<LoggedSlice>>, j: nat, x: nat)
    requires c.Valid() && StripeOk(c, files, stream, logs) && |stream| == c.Capacity() && j < c.g.k && x < c.blockSize
    ensures j in files && |files[j]| == c.blockSize && files[j] == Dealt(stream, c.g.k, c.u, j)
    ensures StreamOffset(c.g.k, c.u, j, x) < |stream| && files[j][x] == stream[StreamOffset(c.g.k, c.u, j, x)]
  {
    hide Fill, Dealt, StreamOffset;
    assert BlockOk(c, FileOf(files, j), j, stream, logs[j]);
    FillFull(c.g.k, c.u, j, c.blockSize);
    DealtLength(stream, c.g.k, c.u, j);
    DealtFrom(stream, c.g.k, c.u, j, x);
  }

  lemma FullParity(c: Setup, files: map<nat, seq<byte>>, stream: seq<byte>, logs: map<nat, seq<LoggedSlice>>, b: nat)
    requires c.Valid() && StripeOk(c, files, stream, logs) && |stream| == c.Capacity() && c.g.k <= b < c.Blocks()
    ensures b in files && IsParity(c, b, stream, files[b])
  {
    hide IsParity, IsLog, DataOk;
    assert BlockOk(c, FileOf(files, b), b, stream, logs[b]);
    CapacityPositive(c);
  }

  lemma CapacityPositive(c: Setup)
    requires c.Valid()
    ensures c.Capacity() > 0
  {
  }

  /** The bytes of the data files at offset x. */
  ghost function DataWord(c: Setup, files: map<nat, seq<byte>>, x: nat): (w: Vec)
    requires c.Valid() && forall j: nat :: j < c.g.k ==> j in files && x < |files[j]|
    ensures |w| == c.g.k && forall j :: 0 <= j < c.g.k ==> w[j] == files[j][x]
  {
    seq(c.g.k, j requires 0 <= j < c.g.k => files[j][x])
  }

  /** Once the stripe is full, every data file is the striped layout of the stream, and every parity file is the
      encoding of the data files. */
  lemma FullStripe(c: Setup, files: map<nat, seq<byte>>, stream: seq<byte>, logs: map<nat, seq<LoggedSlice>>, b: nat, x: nat)
    requires c.Valid() && StripeOk(c, files, stream, logs) && |stream| == c.Capacity() && b < c.Blocks() && x < c.blockSize
    ensures b in files && |files[b]| == c.blockSize
    ensures forall j: nat :: j < c.g.k ==> j in files && |files[j]| == c.blockSize
    ensures Striped(files, stream, c.g.k, c.u)
    ensures b >= c.g.k ==> files[b][x] == Dot(c.gen[b], DataWord(c, files, x), c.g.k)
  {
    hide Dot, Fill, Dealt, StreamOffset, DataOk, StripeOk, Striped;
    FilesStriped(c, files, stream, logs);
    forall j: nat | j < c.g.k ensures j in files && |files[j]| == c.blockSize && files[j] == Dealt(stream, c.g.k, c.u, j) {
      FullData(c, files, stream, logs, j, x);
    }
    if b < c.g.k {
      FullData(c, files, stream, logs, b, x);
    } else {
      FullParity(c, files, stream, logs, b);
      assert DataWord(c, files, x) == StripeColumn(stream, c.g.k, c.u, x);
    }
  }
}
