/** Writing a stripe's first blocks, or all of them: the coordinator plans whole blocks per cluster, the client cuts its
    buffer by its own tables, encodes in place and sends each cluster its part. */
module SetWrites {
  import opened Arithmetic
  import opened DecodePlanner
  import opened Aggregation
  import opened NodePlacement
  import opened AppendPlan
  import opened GroupClasses

  // ----- the coordinator's plans

  /** The blocks of group c that are sent when the first b data blocks are written. */
  function PartBlocks(t: seq<int>, k: nat, b: nat, c: int): seq<nat>
    requires b <= k <= |t|
  {
    InClass(t, c, 0, b) + InClass(t, c, k, |t|)
  }

  datatype SetPlan = SetPlan(blocks: seq<nat>, appendSize: nat)

  /** A group's blocks without the data blocks that are not written. */
  function Sent(ids: seq<nat>, k: nat, b: nat): seq<nat> {
    if ids == [] then []
    else
      var rest, last := Sent(ids[..|ids| - 1], k, b), ids[|ids| - 1];
      if b <= last < k then rest else rest + [last]
  }

  lemma SentPush(ids: seq<nat>, last: nat, k: nat, b: nat)
    ensures Sent(ids + [last], k, b) == Sent(ids, k, b) + if b <= last < k then [] else [last]
  {
    assert (ids + [last])[..|ids|] == ids;
  }

  lemma NothingSent(k: nat, b: nat)
    ensures Sent([], k, b) == []
  {
  }

  lemma {:induction false} SentMembers(t: seq<int>, k: nat, b: nat, c: int, n: nat)
    requires b <= k && n <= |t|
    ensures Sent(Members(t, c, n), k, b)
         == if n < b then InClass(t, c, 0, n)
            else InClass(t, c, 0, b) + if n < k then [] else InClass(t, c, k, n)
    decreases n
  {
    hide Sent;
    if n == 0 {
      NothingSent(k, b);
    } else {
      SentMembers(t, k, b, c, n - 1);
      SentPush(Members(t, c, n - 1), n - 1, k, b);
    }
  }

  /** The groups that get anything, in order. */
  ghost predicate KeptGroups(t: seq<int>, k: nat, b: nat, groups: nat, kept: seq<nat>)
    requires b <= k <= |t|
  {
    && Ascending(kept) && InRange(kept, groups)
    && forall c: nat :: c < groups && c !in kept ==> PartBlocks(t, k, b, c) == []
  }

  /** One plan for each of the groups. */
  ghost predicate PlansFor(plans: seq<SetPlan>, t: seq<int>, k: nat, b: nat, blockSize: nat, kept: seq<nat>)
    requires b <= k <= |t|
  {
    && |plans| == |kept|
    && forall x :: 0 <= x < |kept| ==>
         plans[x] == SetPlan(PartBlocks(t, k, b, kept[x]), |PartBlocks(t, k, b, kept[x])| * blockSize)
  }

  ghost predicate GroupsListed(t: seq<int>, groups: nat, groupToBlocks: map<int, seq<nat>>) {
    forall c: nat :: c < groups ==> c in groupToBlocks && groupToBlocks[c] == Members(t, c, |t|)
  }

  /** Which groups below n get anything. */
  function Nonempty(t: seq<int>, k: nat, b: nat, n: nat): seq<nat>
    requires b <= k <= |t|
  {
    if n == 0 then []
    else Nonempty(t, k, b, n - 1) + if PartBlocks(t, k, b, n - 1) == [] then [] else [n - 1]
  }

  lemma {:induction false} NonemptyKept(t: seq<int>, k: nat, b: nat, n: nat)
    requires b <= k <= |t|
    ensures KeptGroups(t, k, b, n, Nonempty(t, k, b, n))
    ensures forall c :: c in Nonempty(t, k, b, n) ==> PartBlocks(t, k, b, c) != []
  {
    hide PartBlocks;
    if n > 0 {
      NonemptyKept(t, k, b, n - 1);
    }
  }

  method GenerateSubAddPlans(t: seq<int>, groups: nat, groupToBlocks: map<int, seq<nat>>, k: nat, blockSize: nat,
      subsetSize: nat)
    returns (plans: seq<SetPlan>)
    requires blockSize > 0 && k <= |t| && subsetSize / blockSize <= k && GroupsListed(t, groups, groupToBlocks)
    ensures PlansFor(plans, t, k, subsetSize / blockSize, blockSize, Nonempty(t, k, subsetSize / blockSize, groups))
  {
    hide PartBlocks, Sent;
    var b := subsetSize / blockSize;
    plans := [];
    for i := 0 to groups
      invariant PlansFor(plans, t, k, b, blockSize, Nonempty(t, k, b, i))
    {
      var blocks := SelectSent(groupToBlocks[i], k, b);
      PartIsSent(t, k, b, i);
      NoBytes(|blocks|, blockSize);
      var appendSize := |blocks| * blockSize;
      if appendSize == 0 {
        continue;
      }
      plans := plans + [SetPlan(blocks, appendSize)];
    }
  }

  lemma NoBytes(n: nat, size: nat)
    requires size > 0
    ensures n * size == 0 <==> n == 0
  {
    if n > 0 {
      MulMono(1, n, size);
    }
  }

  lemma PartIsSent(t: seq<int>, k: nat, b: nat, c: int)
    requires b <= k <= |t|
    ensures Sent(Members(t, c, |t|), k, b) == PartBlocks(t, k, b, c)
  {
    SentMembers(t, k, b, c, |t|);
  }

  method SelectSent(ids: seq<nat>, k: nat, b: nat) returns (blocks: seq<nat>)
    ensures blocks == Sent(ids, k, b)
  {
    blocks := [];
    for j := 0 to |ids|
      invariant blocks == Sent(ids[..j], k, b)
    {
      assert ids[..j + 1][..j] == ids[..j];
      if ids[j] < k && ids[j] >= b {
        continue;
      }
      blocks := blocks + [ids[j]];
    }
    assert ids[..|ids|] == ids;
  }

  function AllGroups(n: nat): (s: seq<nat>)
    ensures |s| == n && forall i :: 0 <= i < n ==> s[i] == i
  {
    Interval(0, n)
  }

  method GenerateAddPlans(t: seq<int>, groups: nat, groupToBlocks: map<int, seq<nat>>, k: nat, blockSize: nat)
    returns (plans: seq<SetPlan>)
    requires k <= |t| && GroupsListed(t, groups, groupToBlocks)
    ensures PlansFor(plans, t, k, k, blockSize, AllGroups(groups))
  {
    plans := [];
    for i := 0 to groups
      invariant PlansFor(plans, t, k, k, blockSize, AllGroups(i))
    {
      var blocks := groupToBlocks[i];
      MembersSplit(t, i, 0, |t|);
      ClassSplit(t, i, 0, k, |t|);
      assert Members(t, i, 0) == [];
      assert blocks == PartBlocks(t, k, k, i);
      plans := plans + [SetPlan(blocks, |blocks| * blockSize)];
    }
  }

  // ----- the client's tables

  /** Of the numbers in num, group by group, the first b blocks. */
  ghost predicate CappedTo(cut: seq<nat>, num: seq<nat>, b: nat) {
    |cut| == |num| && forall i :: 0 <= i <= |num| ==> Sum(cut[..i]) == Least(b, Sum(num[..i]))
  }

  lemma SumNext(s: seq<nat>, i: nat)
    requires i < |s|
    ensures Sum(s[..i + 1]) == Sum(s[..i]) + s[i]
  {
    assert s[..i + 1][..i] == s[..i];
  }

  /** The capacity loop: later groups get fewer data blocks, or none. */
  method Truncate(num: seq<nat>, blockNum: nat) returns (cut: seq<nat>)
    ensures CappedTo(cut, num, blockNum)
  {
    cut := num;
    var capacity := blockNum;
    assert num[..0] == [];
    for i := 0 to |num|
      invariant |cut| == |num| && forall j :: i <= j < |num| ==> cut[j] == num[j]
      invariant capacity == blockNum - Sum(cut[..i])
      invariant forall j :: 0 <= j <= i ==> Sum(cut[..j]) == Least(blockNum, Sum(num[..j]))
    {
      ghost var before := cut;
      if cut[i] > capacity {
        cut := cut[i := capacity];
      }
      capacity := capacity - cut[i];
      assert forall j :: 0 <= j <= i ==> cut[..j] == before[..j];
      SumNext(cut, i);
      SumNext(num, i);
    }
  }

  lemma CappedAt(cut: seq<nat>, num: seq<nat>, b: nat, i: nat)
    requires CappedTo(cut, num, b) && i < |num|
    ensures cut[i] == Least(b, Sum(num[..i]) + num[i]) - Least(b, Sum(num[..i]))
  {
    hide Sum, Least;
    SumNext(cut, i);
    SumNext(num, i);
  }

  lemma {:induction false} SumGathered(num: seq<nat>, t: seq<int>, k: nat, i: nat)
    requires k <= |t| && i <= |num| && forall c :: 0 <= c < |num| ==> num[c] == |InClass(t, c, 0, k)|
    ensures Sum(num[..i]) == |Gathered(t, i, 0, k)|
    decreases i
  {
    hide InClass;
    if i > 0 {
      SumGathered(num, t, k, i - 1);
      SumNext(num, i - 1);
    }
  }

  /** If num are the numbers of the groups' data blocks, then each group is left its blocks below b. */
  lemma CappedClasses(cut: seq<nat>, num: seq<nat>, b: nat, t: seq<int>, k: nat)
    requires CappedTo(cut, num, b) && b <= k && Rising(t, 0, k, |num|)
    requires forall c :: 0 <= c < |num| ==> num[c] == |InClass(t, c, 0, k)|
    ensures forall c :: 0 <= c < |num| ==> cut[c] == |InClass(t, c, 0, b)|
  {
    hide InClass, Gathered, Sum;
    forall c | 0 <= c < |num| ensures cut[c] == |InClass(t, c, 0, b)| {
      SumGathered(num, t, k, c);
      GatheredCut(t, c, 0, b, k, |num|);
      CutGroup(t, c, 0, b, k, |num|);
      CappedAt(cut, num, b, c);
    }
  }

  function Picked<T>(s: seq<T>, ids: seq<nat>): (p: seq<T>)
    requires InRange(ids, |s|)
    ensures |p| == |ids| && forall i :: 0 <= i < |ids| ==> p[i] == s[ids[i]]
  {
    seq(|ids|, i requires 0 <= i < |ids| => s[ids[i]])
  }

  predicate CommonZero(a: seq<nat>, b: seq<nat>, c: seq<nat>, i: nat)
    requires i < |a| == |b| == |c|
  {
    a[i] == 0 && b[i] == 0 && c[i] == 0
  }

  /** The positions in lo..hi at which not all three lists are zero. */
  function Useful(a: seq<nat>, b: seq<nat>, c: seq<nat>, lo: nat, hi: nat): (u: seq<nat>)
    requires lo <= hi <= |a| == |b| == |c|
    ensures InRange(u, hi)
    decreases hi
  {
    if lo == hi then []
    else Useful(a, b, c, lo, hi - 1) + if CommonZero(a, b, c, hi - 1) then [] else [hi - 1]
  }

  lemma {:induction false} UsefulSplit(a: seq<nat>, b: seq<nat>, c: seq<nat>, lo: nat, mid: nat, hi: nat)
    requires lo <= mid <= hi <= |a| == |b| == |c|
    ensures Useful(a, b, c, lo, hi) == Useful(a, b, c, lo, mid) + Useful(a, b, c, mid, hi)
    decreases hi
  {
    hide CommonZero;
    if mid < hi {
      UsefulSplit(a, b, c, lo, mid, hi - 1);
    }
  }

  lemma {:induction false} UsefulRun(a: seq<nat>, b: seq<nat>, c: seq<nat>, lo: nat, mid: nat)
    requires lo <= mid <= |a| == |b| == |c|
    requires forall p :: lo <= p < mid ==> !CommonZero(a, b, c, p)
    ensures Useful(a, b, c, lo, mid) == Interval(lo, mid - lo)
    decreases mid
  {
    hide CommonZero;
    if lo < mid {
      UsefulRun(a, b, c, lo, mid - 1);
      assert Interval(lo, mid - lo) == Interval(lo, mid - lo - 1) + [mid - 1];
    }
  }

  /** The list with the positions from `from` on already dealt with. */
  ghost predicate Erased(now: seq<nat>, was: seq<nat>, a: seq<nat>, b: seq<nat>, c: seq<nat>, from: nat)
    requires |was| == |a| == |b| == |c| && from <= |a|
  {
    now == was[..from] + Picked(was, Useful(a, b, c, from, |a|))
  }

  lemma PickedRun(was: seq<nat>, lo: nat, mid: nat, rest: seq<nat>)
    requires lo <= mid <= |was| && InRange(rest, |was|)
    ensures InRange(Interval(lo, mid - lo) + rest, |was|)
    ensures Picked(was, Interval(lo, mid - lo) + rest) == was[lo..mid] + Picked(was, rest)
  {
  }

  lemma NotUseful(a: seq<nat>, b: seq<nat>, c: seq<nat>, at: nat)
    requires at < |a| == |b| == |c| && CommonZero(a, b, c, at)
    ensures Useful(a, b, c, at, at + 1) == []
  {
  }

  lemma EraseStep(now: seq<nat>, was: seq<nat>, a: seq<nat>, b: seq<nat>, c: seq<nat>, from: nat, at: nat)
    requires |was| == |a| == |b| == |c| && at < from <= |a| && Erased(now, was, a, b, c, from)
    requires CommonZero(a, b, c, at) && forall p :: at < p < from ==> !CommonZero(a, b, c, p)
    ensures at < |now| && Erased(now[..at] + now[at + 1..], was, a, b, c, at)
  {
    hide CommonZero, Picked, Useful;
    UsefulFrom(a, b, c, at, from);
    PickedRun(was, at + 1, from, Useful(a, b, c, from, |a|));
    CutOut(now, was, Picked(was, Useful(a, b, c, from, |a|)), at, from);
  }

  /** Taking position `at` out of a list that is still as it was before `from`. */
  lemma CutOut(now: seq<nat>, was: seq<nat>, rest: seq<nat>, at: nat, from: nat)
    requires at < from <= |was| && now == was[..from] + rest
    ensures at < |now| && now[..at] + now[at + 1..] == was[..at] + (was[at + 1..from] + rest)
  {
    assert now[..at] == was[..at];
    assert now[at + 1..] == was[at + 1..from] + rest;
  }

  lemma UsefulFrom(a: seq<nat>, b: seq<nat>, c: seq<nat>, at: nat, from: nat)
    requires at < from <= |a| == |b| == |c|
    requires CommonZero(a, b, c, at) && forall p :: at < p < from ==> !CommonZero(a, b, c, p)
    ensures Useful(a, b, c, at, |a|) == Interval(at + 1, from - at - 1) + Useful(a, b, c, from, |a|)
  {
    hide CommonZero, Useful;
    NotUseful(a, b, c, at);
    UsefulSplit(a, b, c, at, at + 1, |a|);
    UsefulSplit(a, b, c, at + 1, from, |a|);
    UsefulRun(a, b, c, at + 1, from);
  }

  lemma EraseDone(now: seq<nat>, was: seq<nat>, a: seq<nat>, b: seq<nat>, c: seq<nat>, from: nat)
    requires |was| == |a| == |b| == |c| && from <= |a| && Erased(now, was, a, b, c, from)
    requires forall p :: 0 <= p < from ==> !CommonZero(a, b, c, p)
    ensures now == Picked(was, Useful(a, b, c, 0, |a|))
  {
    hide CommonZero, Picked;
    UsefulSplit(a, b, c, 0, from, |a|);
    UsefulRun(a, b, c, 0, from);
    PickedRun(was, 0, from, Useful(a, b, c, from, |a|));
  }

  method FindCommonZeros(a: seq<nat>, b: seq<nat>, c: seq<nat>) returns (remove: seq<nat>)
    requires |a| == |b| == |c|
    ensures Ascending(remove) && forall p: nat :: p in remove <==> p < |a| && CommonZero(a, b, c, p)
  {
    remove := [];
    for i := 0 to |a|
      invariant Ascending(remove) && forall p: nat :: p in remove <==> p < i && CommonZero(a, b, c, p)
    {
      if a[i] == 0 && b[i] == 0 && c[i] == 0 {
        assert forall x :: 0 <= x < |remove| ==> remove[x] in remove;
        remove := remove + [i];
      }
    }
  }

  /** The positions below `from` still to be taken out are the first m listed. */
  ghost predicate LeftToErase(a: seq<nat>, b: seq<nat>, c: seq<nat>, remove: seq<nat>, m: nat, from: nat)
    requires m <= |remove| && from <= |a| == |b| == |c|
  {
    && (forall p :: 0 <= p < m ==> remove[p] < from)
    && forall p: nat :: p < from && CommonZero(a, b, c, p) ==> p in remove[..m]
  }

  lemma EraseNext(a: seq<nat>, b: seq<nat>, c: seq<nat>, remove: seq<nat>, m: nat, from: nat)
    requires m < |remove| && from <= |a| == |b| == |c| && LeftToErase(a, b, c, remove, m + 1, from)
    requires Ascending(remove) && forall p: nat :: p in remove <==> p < |a| && CommonZero(a, b, c, p)
    ensures remove[m] < from && CommonZero(a, b, c, remove[m]) && LeftToErase(a, b, c, remove, m, remove[m])
    ensures forall p :: remove[m] < p < from ==> !CommonZero(a, b, c, p)
  {
    hide CommonZero;
    assert remove[m] in remove;
    assert remove[..m + 1] == remove[..m] + [remove[m]];
    forall p | remove[m] < p < from ensures !CommonZero(a, b, c, p) {
      if CommonZero(a, b, c, p) {
        var x :| 0 <= x < m + 1 && remove[x] == p;
        assert false;
      }
    }
  }

  /** Takes out the positions at which all three lists are zero, from the last one to the first. */
  method RemoveCommonZeros(a: seq<nat>, b: seq<nat>, c: seq<nat>) returns (p: seq<nat>, q: seq<nat>, s: seq<nat>)
    ensures |a| != |b| || |b| != |c| ==> p == a && q == b && s == c
    ensures |a| == |b| == |c| ==> var u := Useful(a, b, c, 0, |a|);
      p == Picked(a, u) && q == Picked(b, u) && s == Picked(c, u)
  {
    hide Erased, Useful, Picked, CommonZero, Ascending, LeftToErase;
    p, q, s := a, b, c;
    if |a| != |b| || |b| != |c| {
      return;
    }
    var remove := FindCommonZeros(a, b, c);
    ghost var from: nat := |a|;
    NothingErased(a, b, c);
    AllToErase(a, b, c, remove);
    for m := |remove| downto 0
      invariant from <= |a| && LeftToErase(a, b, c, remove, m, from)
      invariant Erased(p, a, a, b, c, from) && Erased(q, b, a, b, c, from) && Erased(s, c, a, b, c, from)
    {
      EraseNext(a, b, c, remove, m, from);
      EraseStep(p, a, a, b, c, from, remove[m]);
      EraseStep(q, b, a, b, c, from, remove[m]);
      EraseStep(s, c, a, b, c, from, remove[m]);
      p := p[..remove[m]] + p[remove[m] + 1..];
      q := q[..remove[m]] + q[remove[m] + 1..];
      s := s[..remove[m]] + s[remove[m] + 1..];
      from := remove[m];
    }
    NoneToErase(a, b, c, remove, from);
    EraseDone(p, a, a, b, c, from);
    EraseDone(q, b, a, b, c, from);
    EraseDone(s, c, a, b, c, from);
  }

  lemma AllToErase(a: seq<nat>, b: seq<nat>, c: seq<nat>, remove: seq<nat>)
    requires |a| == |b| == |c| && forall p: nat :: p in remove <==> p < |a| && CommonZero(a, b, c, p)
    ensures LeftToErase(a, b, c, remove, |remove|, |a|)
  {
    hide CommonZero;
    assert remove[..|remove|] == remove;
    assert forall x :: 0 <= x < |remove| ==> remove[x] in remove;
  }

  lemma NoneToErase(a: seq<nat>, b: seq<nat>, c: seq<nat>, remove: seq<nat>, from: nat)
    requires from <= |a| == |b| == |c| && LeftToErase(a, b, c, remove, 0, from)
    ensures forall p :: 0 <= p < from ==> !CommonZero(a, b, c, p)
  {
    hide CommonZero;
  }

  lemma NothingErased(a: seq<nat>, b: seq<nat>, c: seq<nat>)
    requires |a| == |b| == |c|
    ensures Erased(a, a, a, b, c, |a|) && Erased(b, b, a, b, c, |a|) && Erased(c, c, a, b, c, |a|)
  {
  }

  // ----- cutting and encoding

  /** A slice of a cluster's part: an address in the client's buffer. */
  datatype Slot = Slot(part: nat, index: nat)

  /** num[x] slots of each part x, behind its first from[x] ones. */
  function Slots(from: seq<nat>, num: seq<nat>, n: nat): seq<Slot>
    requires n <= |from| && n <= |num|
  {
    if n == 0 then [] else Slots(from, num, n - 1) + Run(n - 1, from[n - 1], num[n - 1])
  }

  function Run(part: nat, from: nat, num: nat): (s: seq<Slot>)
    ensures |s| == num && forall i :: 0 <= i < num ==> s[i] == Slot(part, from + i)
  {
    seq(num, i requires 0 <= i < num => Slot(part, from + i))
  }

  predicate SlotIn(blocks: seq<seq<nat>>, s: Slot) {
    s.part < |blocks| && s.index < |blocks[s.part]|
  }

  /** The number of the block that belongs into a slot. */
  function BlockAt(blocks: seq<seq<nat>>, s: Slot): nat
    requires SlotIn(blocks, s)
  {
    blocks[s.part][s.index]
  }

  ghost predicate AllIn(blocks: seq<seq<nat>>, slots: seq<Slot>) {
    forall i :: 0 <= i < |slots| ==> SlotIn(blocks, slots[i])
  }

  function BlocksAt(blocks: seq<seq<nat>>, slots: seq<Slot>): (ids: seq<nat>)
    requires AllIn(blocks, slots)
    ensures |ids| == |slots| && forall i :: 0 <= i < |slots| ==> ids[i] == BlockAt(blocks, slots[i])
  {
    seq(|slots|, i requires 0 <= i < |slots| => BlockAt(blocks, slots[i]))
  }

  lemma BlocksConcat(blocks: seq<seq<nat>>, a: seq<Slot>, b: seq<Slot>)
    requires AllIn(blocks, a) && AllIn(blocks, b)
    ensures AllIn(blocks, a + b) && BlocksAt(blocks, a + b) == BlocksAt(blocks, a) + BlocksAt(blocks, b)
  {
    hide SlotIn;
  }

  lemma RunBlocks(blocks: seq<seq<nat>>, part: nat, from: nat, num: nat)
    requires part < |blocks| && from + num <= |blocks[part]|
    ensures AllIn(blocks, Run(part, from, num))
    ensures BlocksAt(blocks, Run(part, from, num)) == blocks[part][from..from + num]
  {
  }

  /** The blocks lo..hi of the listed groups, group by group. */
  function OfGroups(t: seq<int>, kept: seq<nat>, lo: nat, hi: nat): seq<nat>
    requires lo <= hi <= |t|
  {
    if kept == [] then [] else OfGroups(t, kept[..|kept| - 1], lo, hi) + InClass(t, kept[|kept| - 1], lo, hi)
  }

  /** Groups without such blocks can be left out. */
  lemma {:induction false} OfGroupsGathered(t: seq<int>, kept: seq<nat>, groups: nat, lo: nat, hi: nat)
    requires lo <= hi <= |t| && Ascending(kept) && InRange(kept, groups)
    requires forall c: nat :: c < groups && c !in kept ==> InClass(t, c, lo, hi) == []
    ensures OfGroups(t, kept, lo, hi) == Gathered(t, groups, lo, hi)
    decreases groups
  {
    hide InClass, Ascending;
    if groups > 0 {
      if groups - 1 in kept {
        LastIsLargest(kept, groups - 1);
        OfGroupsGathered(t, kept[..|kept| - 1], groups - 1, lo, hi);
      } else {
        Below(kept, groups - 1);
        OfGroupsGathered(t, kept, groups - 1, lo, hi);
      }
    }
  }

  lemma Below(kept: seq<nat>, c: nat)
    requires InRange(kept, c + 1) && c !in kept
    ensures InRange(kept, c)
  {
    assert forall i :: 0 <= i < |kept| ==> kept[i] in kept;
  }

  lemma LastIsLargest(kept: seq<nat>, c: nat)
    requires Ascending(kept) && c in kept && InRange(kept, c + 1)
    ensures kept != [] && kept[|kept| - 1] == c
    ensures var rest := kept[..|kept| - 1];
      Ascending(rest) && InRange(rest, c) && forall i :: i in kept <==> i in rest || i == c
  {
    var x :| 0 <= x < |kept| && kept[x] == c;
    assert kept == kept[..|kept| - 1] + [kept[|kept| - 1]];
  }

  /** The blocks lo..hi of each group are planned behind its first from[x] blocks. */
  ghost predicate LaidOut(blocks: seq<seq<nat>>, from: seq<nat>, num: seq<nat>, t: seq<int>, kept: seq<nat>, lo: nat, hi: nat)
    requires lo <= hi <= |t|
  {
    && |kept| == |blocks| == |from| == |num|
    && forall x :: 0 <= x < |kept| ==>
         from[x] + num[x] <= |blocks[x]| && blocks[x][from[x]..from[x] + num[x]] == InClass(t, kept[x], lo, hi)
  }

  /** The blocks of the slots are those of the class that the slots are for. */
  lemma {:induction false} SlotBlocks(t: seq<int>, kept: seq<nat>, blocks: seq<seq<nat>>, from: seq<nat>, num: seq<nat>,
      lo: nat, hi: nat, n: nat)
    requires lo <= hi <= |t| && n <= |kept| == |from| == |num| && LaidOut(blocks, from, num, t, kept, lo, hi)
    ensures AllIn(blocks, Slots(from, num, n))
    ensures BlocksAt(blocks, Slots(from, num, n)) == OfGroups(t, kept[..n], lo, hi)
  {
    hide InClass, BlocksAt, AllIn, Run;
    if n == 0 {
      NoSlots(blocks);
    } else {
      SlotBlocks(t, kept, blocks, from, num, lo, hi, n - 1);
      assert kept[..n][..n - 1] == kept[..n - 1];
      RunBlocks(blocks, n - 1, from[n - 1], num[n - 1]);
      BlocksConcat(blocks, Slots(from, num, n - 1), Run(n - 1, from[n - 1], num[n - 1]));
    }
  }

  lemma NoSlots(blocks: seq<seq<nat>>)
    ensures AllIn(blocks, []) && BlocksAt(blocks, []) == []
  {
  }
}
