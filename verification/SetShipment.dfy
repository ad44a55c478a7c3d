/** The client's side of a set write: cutting the clusters' parts, encoding in place, and what each cluster gets. */
module SetShipment {
  import opened Arithmetic
  import opened Field
  import opened DecodePlanner
  import opened Generators
  import opened Aggregation
  import opened Encoder
  import opened ProxyRecovery
  import opened AppendPlan
  import opened ClientAppend
  import opened GroupClasses
  import opened SetWrites
  import opened StripeEncoder

  // ----- cutting

  function Plus(a: seq<nat>, b: seq<nat>): (s: seq<nat>)
    requires |a| == |b|
    ensures |s| == |a| && forall i :: 0 <= i < |a| ==> s[i] == a[i] + b[i]
  {
    seq(|a|, i requires 0 <= i < |a| => a[i] + b[i])
  }

  /** A part cut into whole blocks. */
  ghost predicate CutInto(slices: seq<seq<byte>>, part: seq<byte>, n: nat, blockSize: nat) {
    && |slices| == n && Pieces(slices, part, Constant<nat>(n, blockSize))
    && forall y :: 0 <= y < n ==> |slices[y]| == blockSize
  }

  method CutPart(part: seq<byte>, n: nat, blockSize: nat) returns (slices: Option<seq<seq<byte>>>)
    ensures slices.Some? <==> n * blockSize == |part|
    ensures slices.Some? ==> CutInto(slices.value, part, n, blockSize)
  {
    hide Pieces;
    SumConstant(Constant<nat>(n, blockSize), blockSize);
    slices := SplitCharPointer(part, Constant<nat>(n, blockSize));
    if slices.Some? {
      PiecesUnique(slices.value, slices.value, part, Constant<nat>(n, blockSize));
    }
  }

  datatype Pointers = Pointers(slices: seq<seq<seq<byte>>>, data: seq<Slot>, globals: seq<Slot>, locals: seq<Slot>)

  /** Each part is cut into its data blocks, then its global parities, then its local parities. */
  ghost predicate CutBy(p: Pointers, parts: seq<seq<byte>>, blockSize: nat, d: seq<nat>, g: seq<nat>, l: seq<nat>, n: nat)
    requires n <= |parts| && n <= |d| == |g| == |l|
  {
    && |p.slices| == n
    && (forall x :: 0 <= x < n ==> CutInto(p.slices[x], parts[x], d[x] + g[x] + l[x], blockSize))
    && p.data == Slots(Constant<nat>(|d|, 0), d, n) && p.globals == Slots(d, g, n) && p.locals == Slots(Plus(d, g), l, n)
  }

  /** split_for_set_data_and_parity. A cut that fails, or a part without table entries, is None. */
  method SplitForSet(parts: seq<seq<byte>>, blockSize: nat, d: seq<nat>, g: seq<nat>, l: seq<nat>)
    returns (p: Option<Pointers>)
    requires |d| == |g| == |l|
    ensures p.Some? <==>
      |parts| <= |d| && forall x :: 0 <= x < |parts| ==> (d[x] + g[x] + l[x]) * blockSize == |parts[x]|
    ensures p.Some? ==> CutBy(p.value, parts, blockSize, d, g, l, |parts|)
  {
    hide CutInto, CutBy, Slots, Run;
    if |parts| > |d| {
      return None;
    }
    var slices, data, globals, locals := [], [], [], [];
    NothingCut(parts, blockSize, d, g, l);
    for i := 0 to |parts|
      invariant forall x :: 0 <= x < i ==> (d[x] + g[x] + l[x]) * blockSize == |parts[x]|
      invariant CutBy(Pointers(slices, data, globals, locals), parts, blockSize, d, g, l, i)
    {
      var cut := CutPart(parts[i], d[i] + g[i] + l[i], blockSize);
      if cut.None? {
        return None;
      }
      CutNext(Pointers(slices, data, globals, locals), cut.value, parts, blockSize, d, g, l, i);
      slices := slices + [cut.value];
      data := data + Run(i, 0, d[i]);
      globals := globals + Run(i, d[i], g[i]);
      locals := locals + Run(i, d[i] + g[i], l[i]);
    }
    p := Some(Pointers(slices, data, globals, locals));
  }

  lemma NothingCut(parts: seq<seq<byte>>, blockSize: nat, d: seq<nat>, g: seq<nat>, l: seq<nat>)
    requires |d| == |g| == |l|
    ensures CutBy(Pointers([], [], [], []), parts, blockSize, d, g, l, 0)
  {
  }

  lemma CutNext(p: Pointers, cut: seq<seq<byte>>, parts: seq<seq<byte>>, blockSize: nat, d: seq<nat>, g: seq<nat>,
      l: seq<nat>, i: nat)
    requires i < |parts| && i < |d| == |g| == |l| && CutBy(p, parts, blockSize, d, g, l, i)
    requires CutInto(cut, parts[i], d[i] + g[i] + l[i], blockSize)
    ensures CutBy(Pointers(p.slices + [cut], p.data + Run(i, 0, d[i]), p.globals + Run(i, d[i], g[i]),
      p.locals + Run(i, d[i] + g[i], l[i])), parts, blockSize, d, g, l, i + 1)
  {
    hide CutInto, Run;
    assert Slots(Constant<nat>(|d|, 0), d, i + 1) == Slots(Constant<nat>(|d|, 0), d, i) + Run(i, 0, d[i]);
  }

  // ----- each block once

  ghost predicate BlocksOf(blocks: seq<seq<nat>>, t: seq<int>, k: nat, b: nat, kept: seq<nat>)
    requires b <= k <= |t|
  {
    && |blocks| == |kept|
    && forall x :: 0 <= x < |kept| ==> blocks[x] == PartBlocks(t, k, b, kept[x])
  }

  ghost predicate Once(blocks: seq<seq<nat>>) {
    forall s, q :: SlotIn(blocks, s) && SlotIn(blocks, q) && BlockAt(blocks, s) == BlockAt(blocks, q) ==> s == q
  }

  lemma {:induction false} ClassAscending(t: seq<int>, c: int, lo: nat, hi: nat)
    requires lo <= hi <= |t|
    ensures Ascending(InClass(t, c, lo, hi))
    decreases hi
  {
    if lo < hi {
      ClassAscending(t, c, lo, hi - 1);
      ClassRange(t, c, lo, hi - 1);
      var s := InClass(t, c, lo, hi - 1);
      assert forall i :: 0 <= i < |s| ==> s[i] in s;
    }
  }

  lemma PartRange(t: seq<int>, k: nat, b: nat, c: int)
    requires b <= k <= |t|
    ensures Ascending(PartBlocks(t, k, b, c))
    ensures forall i :: i in PartBlocks(t, k, b, c) ==> (i < b || k <= i < |t|) && t[i] == c
  {
    hide InClass;
    ClassAscending(t, c, 0, b);
    ClassAscending(t, c, k, |t|);
    ClassRange(t, c, 0, b);
    ClassRange(t, c, k, |t|);
    var x, y := InClass(t, c, 0, b), InClass(t, c, k, |t|);
    assert forall i :: 0 <= i < |x| ==> x[i] in x;
    assert forall i :: 0 <= i < |y| ==> y[i] in y;
  }

  /** No block is planned twice, and none but the written data blocks and the parities. */
  lemma PlannedOnce(blocks: seq<seq<nat>>, t: seq<int>, k: nat, b: nat, kept: seq<nat>)
    requires b <= k <= |t| && Ascending(kept) && BlocksOf(blocks, t, k, b, kept)
    ensures Once(blocks)
    ensures forall s :: SlotIn(blocks, s) ==> BlockAt(blocks, s) < b || k <= BlockAt(blocks, s) < |t|
  {
    hide PartBlocks;
    forall s | SlotIn(blocks, s)
      ensures
        && (BlockAt(blocks, s) < b || k <= BlockAt(blocks, s) < |t|)
        && t[BlockAt(blocks, s)] == kept[s.part]
    {
      PartRange(t, k, b, kept[s.part]);
      assert blocks[s.part][s.index] in blocks[s.part];
    }
    forall s, q | SlotIn(blocks, s) && SlotIn(blocks, q) && BlockAt(blocks, s) == BlockAt(blocks, q) ensures s == q {
      PartRange(t, k, b, kept[s.part]);
      SamePlace(kept, s.part, q.part);
      SamePlace(blocks[s.part], s.index, q.index);
    }
  }

  lemma SamePlace(ids: seq<nat>, x: nat, y: nat)
    requires Ascending(ids) && x < |ids| && y < |ids| && ids[x] == ids[y]
    ensures x == y
  {
  }

  // ----- the pointers are those of the planned blocks

  /** The numbers of blocks of each kind in the parts. */
  ghost predicate NumsFor(d: seq<nat>, g: seq<nat>, l: seq<nat>, t: seq<int>, k: nat, r: nat, b: nat, kept: seq<nat>)
    requires b <= k <= k + r <= |t|
  {
    && |d| == |g| == |l| == |kept|
    && forall x :: 0 <= x < |kept| ==>
         && d[x] == |InClass(t, kept[x], 0, b)|
         && g[x] == |InClass(t, kept[x], k, k + r)|
         && l[x] == |InClass(t, kept[x], k + r, |t|)|
  }

  lemma PartSplit(t: seq<int>, k: nat, r: nat, b: nat, c: int)
    requires b <= k <= k + r <= |t|
    ensures PartBlocks(t, k, b, c) == InClass(t, c, 0, b) + InClass(t, c, k, k + r) + InClass(t, c, k + r, |t|)
  {
    ClassSplit(t, c, k, k + r, |t|);
  }

  /** What pointers to the slots of all classes amount to. */
  ghost predicate PointToBlocks(p: Pointers, blocks: seq<seq<nat>>, k: nat, r: nat, z: nat, b: nat) {
    && AllIn(blocks, p.data) && BlocksAt(blocks, p.data) == Interval(0, b)
    && AllIn(blocks, p.globals) && BlocksAt(blocks, p.globals) == Interval(k, r)
    && AllIn(blocks, p.locals) && BlocksAt(blocks, p.locals) == Interval(k + r, z)
  }

  ghost predicate AllRising(t: seq<int>, k: nat, r: nat, groups: nat) {
    && k + r <= |t| && Rising(t, 0, k, groups) && Rising(t, k, k + r, groups) && Rising(t, k + r, |t|, groups)
  }

  lemma NothingLeftOut(t: seq<int>, k: nat, r: nat, b: nat, groups: nat, kept: seq<nat>)
    requires b <= k <= k + r <= |t| && KeptGroups(t, k, b, groups, kept)
    ensures forall c: nat :: c < groups && c !in kept ==>
      InClass(t, c, 0, b) == [] && InClass(t, c, k, k + r) == [] && InClass(t, c, k + r, |t|) == []
  {
    hide InClass, PartBlocks;
    forall c: nat | c < groups && c !in kept
      ensures InClass(t, c, 0, b) == [] && InClass(t, c, k, k + r) == [] && InClass(t, c, k + r, |t|) == []
    {
      PartSplit(t, k, r, b, c);
    }
  }

  lemma RisingPrefix(t: seq<int>, k: nat, b: nat, groups: nat)
    requires b <= k && Rising(t, 0, k, groups)
    ensures Rising(t, 0, b, groups)
  {
  }

  lemma ClassPointers(blocks: seq<seq<nat>>, from: seq<nat>, num: seq<nat>, t: seq<int>, kept: seq<nat>, groups: nat,
      lo: nat, hi: nat)
    requires lo <= hi <= |t| && Rising(t, lo, hi, groups) && Ascending(kept) && InRange(kept, groups)
    requires forall c: nat :: c < groups && c !in kept ==> InClass(t, c, lo, hi) == []
    requires |kept| == |from| == |num| && LaidOut(blocks, from, num, t, kept, lo, hi)
    ensures AllIn(blocks, Slots(from, num, |kept|))
    ensures BlocksAt(blocks, Slots(from, num, |kept|)) == Interval(lo, hi - lo)
  {
    hide InClass, Gathered, OfGroups, BlocksAt, AllIn, Slots, LaidOut, Ascending, Rising;
    SlotBlocks(t, kept, blocks, from, num, lo, hi, |kept|);
    assert kept[..|kept|] == kept;
    OfGroupsGathered(t, kept, groups, lo, hi);
    GatheredAll(t, lo, hi, groups);
  }

  /** Where the slices of each kind are within a part. */
  lemma PartLayout(blocks: seq<seq<nat>>, d: seq<nat>, g: seq<nat>, l: seq<nat>, t: seq<int>, k: nat, r: nat, b: nat,
      kept: seq<nat>, x: nat)
    requires b <= k <= k + r <= |t| && NumsFor(d, g, l, t, k, r, b, kept) && BlocksOf(blocks, t, k, b, kept)
    requires x < |kept|
    ensures |blocks[x]| == d[x] + g[x] + l[x] && blocks[x][0..d[x]] == InClass(t, kept[x], 0, b)
    ensures blocks[x][d[x]..d[x] + g[x]] == InClass(t, kept[x], k, k + r)
    ensures blocks[x][d[x] + g[x]..d[x] + g[x] + l[x]] == InClass(t, kept[x], k + r, |t|)
  {
    hide InClass, PartBlocks;
    PartSplit(t, k, r, b, kept[x]);
  }

  lemma PartsLaidOut(blocks: seq<seq<nat>>, d: seq<nat>, g: seq<nat>, l: seq<nat>, t: seq<int>, k: nat, r: nat, b: nat,
      kept: seq<nat>)
    requires b <= k <= k + r <= |t| && NumsFor(d, g, l, t, k, r, b, kept) && BlocksOf(blocks, t, k, b, kept)
    ensures forall x :: 0 <= x < |kept| ==> |blocks[x]| == d[x] + g[x] + l[x]
    ensures LaidOut(blocks, Constant<nat>(|kept|, 0), d, t, kept, 0, b) && LaidOut(blocks, d, g, t, kept, k, k + r)
    ensures LaidOut(blocks, Plus(d, g), l, t, kept, k + r, |t|)
  {
    hide InClass, PartBlocks;
    forall x | 0 <= x < |kept|
      ensures |blocks[x]| == d[x] + g[x] + l[x] && blocks[x][0..d[x]] == InClass(t, kept[x], 0, b)
      ensures blocks[x][d[x]..d[x] + g[x]] == InClass(t, kept[x], k, k + r)
      ensures blocks[x][d[x] + g[x]..d[x] + g[x] + l[x]] == InClass(t, kept[x], k + r, |t|)
    {
      PartLayout(blocks, d, g, l, t, k, r, b, kept, x);
    }
  }

  /** Data block b is encoded from, and parity block j to, exactly the slice that is sent under its name. */
  lemma PointersAgree(p: Pointers, parts: seq<seq<byte>>, blockSize: nat, d: seq<nat>, g: seq<nat>, l: seq<nat>,
      blocks: seq<seq<nat>>, t: seq<int>, k: nat, r: nat, b: nat, groups: nat, kept: seq<nat>)
    requires b <= k <= k + r <= |t| && AllRising(t, k, r, groups) && KeptGroups(t, k, b, groups, kept)
    requires NumsFor(d, g, l, t, k, r, b, kept) && BlocksOf(blocks, t, k, b, kept)
    requires |parts| == |kept| && CutBy(p, parts, blockSize, d, g, l, |parts|)
    ensures PointToBlocks(p, blocks, k, r, |t| - k - r, b) && Shaped(p.slices, blocks, blockSize)
  {
    hide InClass, PartBlocks, BlocksAt, AllIn, Slots, Rising, Pieces, LaidOut;
    PartsLaidOut(blocks, d, g, l, t, k, r, b, kept);
    NothingLeftOut(t, k, r, b, groups, kept);
    RisingPrefix(t, k, b, groups);
    ClassPointers(blocks, Constant<nat>(|kept|, 0), d, t, kept, groups, 0, b);
    ClassPointers(blocks, d, g, t, kept, groups, k, k + r);
    ClassPointers(blocks, Plus(d, g), l, t, kept, groups, k + r, |t|);
  }

  // ----- encoding in place

  /** The client's buffer holds one whole block for each planned one. */
  ghost predicate Shaped(slices: seq<seq<seq<byte>>>, blocks: seq<seq<nat>>, blockSize: nat) {
    && |slices| == |blocks|
    && forall x :: 0 <= x < |blocks| ==>
         |slices[x]| == |blocks[x]| && forall y :: 0 <= y < |blocks[x]| ==> |slices[x][y]| == blockSize
  }

  /** The data blocks that the slots point to. */
  method DataAt(slices: seq<seq<seq<byte>>>, slots: seq<Slot>, ghost blocks: seq<seq<nat>>, ghost blockSize: nat)
    returns (data: seq<seq<byte>>)
    requires Shaped(slices, blocks, blockSize) && AllIn(blocks, slots)
    ensures |data| == |slots|
    ensures forall j :: 0 <= j < |slots| ==> Holds(slices, slots[j], data[j]) && |data[j]| == blockSize
  {
    data := [];
    for j := 0 to |slots|
      invariant |data| == j
      invariant forall i :: 0 <= i < j ==> Holds(slices, slots[i], data[i]) && |data[i]| == blockSize
    {
      assert SlotIn(blocks, slots[j]);
      data := data + [slices[slots[j].part][slots[j].index]];
    }
  }

  ghost predicate Holds(slices: seq<seq<seq<byte>>>, s: Slot, v: seq<byte>) {
    s.part < |slices| && s.index < |slices[s.part]| && slices[s.part][s.index] == v
  }

  /** Each slice holds the stripe's block that is planned there. */
  ghost predicate Carries(slices: seq<seq<seq<byte>>>, blocks: seq<seq<nat>>, stored: seq<seq<byte>>) {
    && |slices| == |blocks| && (forall x :: 0 <= x < |blocks| ==> |slices[x]| == |blocks[x]|)
    && forall s :: SlotIn(blocks, s) ==> BlockAt(blocks, s) < |stored| && Holds(slices, s, stored[BlockAt(blocks, s)])
  }

  /** The slices planned for data blocks hold these. */
  ghost predicate HoldsData(slices: seq<seq<seq<byte>>>, blocks: seq<seq<nat>>, data: seq<seq<byte>>) {
    forall s :: SlotIn(blocks, s) && BlockAt(blocks, s) < |data| ==> Holds(slices, s, data[BlockAt(blocks, s)])
  }

  /** The bytes of all slices once the first n parities are written to their slots. */
  ghost predicate WrittenUpTo(now: seq<seq<seq<byte>>>, was: seq<seq<seq<byte>>>, blocks: seq<seq<nat>>, k: nat,
      parity: seq<seq<byte>>, n: nat)
    requires n <= |parity|
  {
    && |now| == |was| == |blocks|
    && (forall x :: 0 <= x < |was| ==> |now[x]| == |was[x]| == |blocks[x]|)
    && forall s :: SlotIn(blocks, s) ==>
         var i := BlockAt(blocks, s);
         Holds(now, s, if k <= i < k + n then parity[i - k] else was[s.part][s.index])
  }

  lemma WriteStep(now: seq<seq<seq<byte>>>, was: seq<seq<seq<byte>>>, blocks: seq<seq<nat>>, k: nat,
      parity: seq<seq<byte>>, n: nat, at: Slot)
    requires n < |parity| && Once(blocks) && WrittenUpTo(now, was, blocks, k, parity, n)
    requires SlotIn(blocks, at) && BlockAt(blocks, at) == k + n
    ensures at.part < |now| && at.index < |now[at.part]|
    ensures WrittenUpTo(now[at.part := now[at.part][at.index := parity[n]]], was, blocks, k, parity, n + 1)
  {
    var next := now[at.part := now[at.part][at.index := parity[n]]];
    forall s | SlotIn(blocks, s)
      ensures var i := BlockAt(blocks, s);
        Holds(next, s, if k <= i < k + n + 1 then parity[i - k] else was[s.part][s.index])
    {
      if s != at {
        assert BlockAt(blocks, s) != k + n;
        assert Holds(now, s, now[s.part][s.index]);
      }
    }
  }

  method WriteParities(slices: seq<seq<seq<byte>>>, slots: seq<Slot>, parity: seq<seq<byte>>, ghost blocks: seq<seq<nat>>,
      ghost k: nat)
    returns (now: seq<seq<seq<byte>>>)
    requires Once(blocks) && AllIn(blocks, slots) && BlocksAt(blocks, slots) == Interval(k, |parity|)
    requires |slots| == |parity| && |slices| == |blocks| && forall x :: 0 <= x < |slices| ==> |slices[x]| == |blocks[x]|
    ensures WrittenUpTo(now, slices, blocks, k, parity, |parity|)
  {
    hide Once, WrittenUpTo;
    now := slices;
    NothingWritten(slices, blocks, k, parity);
    for j := 0 to |parity|
      invariant WrittenUpTo(now, slices, blocks, k, parity, j)
    {
      var at := slots[j];
      assert SlotIn(blocks, at) && BlockAt(blocks, at) == BlocksAt(blocks, slots)[j] == k + j;
      WriteStep(now, slices, blocks, k, parity, j, at);
      now := now[at.part := now[at.part][at.index := parity[j]]];
    }
  }

  lemma NothingWritten(slices: seq<seq<seq<byte>>>, blocks: seq<seq<nat>>, k: nat, parity: seq<seq<byte>>)
    requires |slices| == |blocks| && forall x :: 0 <= x < |slices| ==> |slices[x]| == |blocks[x]|
    ensures WrittenUpTo(slices, slices, blocks, k, parity, 0)
  {
  }

  /** The stripe whose other data blocks are zero. */
  function StripeOf(data: seq<seq<byte>>, parity: seq<seq<byte>>, k: nat, len: nat): (s: seq<seq<byte>>)
    requires |data| <= k
    ensures |s| == k + |parity|
  {
    Padded(data, k, len) + parity
  }

  lemma AllCarried(now: seq<seq<seq<byte>>>, was: seq<seq<seq<byte>>>, blocks: seq<seq<nat>>, slots: seq<Slot>, k: nat,
      data: seq<seq<byte>>, parity: seq<seq<byte>>, len: nat)
    requires Once(blocks) && AllIn(blocks, slots) && BlocksAt(blocks, slots) == Interval(0, |data|) && |data| <= k
    requires WrittenUpTo(now, was, blocks, k, parity, |parity|)
    requires |slots| == |data| && forall j :: 0 <= j < |data| ==> Holds(was, slots[j], data[j])
    requires forall s :: SlotIn(blocks, s) ==> BlockAt(blocks, s) < |data| || k <= BlockAt(blocks, s) < k + |parity|
    ensures Carries(now, blocks, StripeOf(data, parity, k, len)) && HoldsData(was, blocks, data)
  {
    forall s | SlotIn(blocks, s)
      ensures Holds(now, s, StripeOf(data, parity, k, len)[BlockAt(blocks, s)])
      ensures BlockAt(blocks, s) < |data| ==> Holds(was, s, data[BlockAt(blocks, s)])
    {
      var i := BlockAt(blocks, s);
      if i < |data| {
        assert SlotIn(blocks, slots[i]) && BlockAt(blocks, slots[i]) == BlocksAt(blocks, slots)[i];
        assert s == slots[i];
      }
    }
  }

  lemma ParityCount(parity: seq<seq<byte>>, code: Code, k: nat, r: nat, z: nat, data: seq<seq<byte>>, len: nat)
    requires Shape(code, k, r, z) && |data| == k && forall j :: 0 <= j < k ==> |data[j]| == len
    requires ParitiesOf(parity, code, k, r, z, data, len)
    ensures |parity| == r + z
  {
    hide Generator, Shape;
  }

  /** Encodes what the data pointers point to, into what the parity pointers point to. */
  method EncodeInPlace(code: Code, k: nat, r: nat, z: nat, blockSize: nat, whole: bool, p: Pointers,
      ghost blocks: seq<seq<nat>>)
    returns (sent: seq<seq<seq<byte>>>, ghost stored: seq<seq<byte>>, ghost data: seq<seq<byte>>)
    requires Shape(code, k, r, z) && |p.data| <= k && (whole ==> |p.data| == k) && Encodable(|p.data|, r + z, blockSize)
    requires PointToBlocks(p, blocks, k, r, z, |p.data|) && Shaped(p.slices, blocks, blockSize) && Once(blocks)
    requires forall s :: SlotIn(blocks, s) ==> BlockAt(blocks, s) < |p.data| || k <= BlockAt(blocks, s) < k + r + z
    ensures |data| == |p.data| && HoldsData(p.slices, blocks, data)
    ensures Stores(stored, Generator(code, k, r, z), Padded(data, k, blockSize), blockSize)
    ensures Carries(sent, blocks, stored)
  {
    hide Once, Shape, Stores, ParitiesOf, WrittenUpTo, Carries, HoldsData, Generator, SlotIn, BlockAt;
    var blocksToEncode := DataAt(p.slices, p.data, blocks, blockSize);
    data := blocksToEncode;
    var parity;
    if whole {
      assert Padded(data, k, blockSize) == data;
      parity := EncodeStripe(code, k, r, z, blocksToEncode, blockSize);
    } else {
      parity := PartialEncode(code, k, r, z, blocksToEncode, blockSize);
    }
    var parityPtrs := p.globals + p.locals;
    BlocksConcat(blocks, p.globals, p.locals);
    assert Interval(k, r) + Interval(k + r, z) == Interval(k, r + z);
    ParityCount(parity, code, k, r, z, Padded(data, k, blockSize), blockSize);
    sent := WriteParities(p.slices, parityPtrs, parity, blocks, k);
    StripeStored(code, k, r, z, Padded(data, k, blockSize), parity, blockSize);
    stored := StripeOf(data, parity, k, blockSize);
    AllCarried(sent, p.slices, blocks, p.data, k, data, parity, blockSize);
  }
}
