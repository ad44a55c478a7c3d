/** Data blocks, global and local parities are three ranges of a stripe's block numbers. Within each range the
    placement groups never fall, so going through the groups in order goes through the blocks in order. */
module GroupClasses {
  import opened Aggregation
  import opened NodePlacement
  import opened ConfigCapacity

  /** The blocks of group c among lo..hi. */
  function InClass(t: seq<int>, c: int, lo: nat, hi: nat): seq<nat>
    requires lo <= hi <= |t|
    decreases hi
  {
    if lo == hi then []
    else if t[hi - 1] == c then InClass(t, c, lo, hi - 1) + [hi - 1]
    else InClass(t, c, lo, hi - 1)
  }

  lemma {:induction false} MembersSplit(t: seq<int>, c: int, lo: nat, hi: nat)
    requires lo <= hi <= |t|
    ensures Members(t, c, hi) == Members(t, c, lo) + InClass(t, c, lo, hi)
    decreases hi
  {
    if lo < hi {
      MembersSplit(t, c, lo, hi - 1);
    }
  }

  lemma {:induction false} ClassSplit(t: seq<int>, c: int, lo: nat, mid: nat, hi: nat)
    requires lo <= mid <= hi <= |t|
    ensures InClass(t, c, lo, hi) == InClass(t, c, lo, mid) + InClass(t, c, mid, hi)
    decreases hi
  {
    if mid < hi {
      ClassSplit(t, c, lo, mid, hi - 1);
    }
  }

  lemma {:induction false} ClassCount(t: seq<int>, c: int, lo: nat, hi: nat)
    requires lo <= hi <= |t|
    ensures |InClass(t, c, lo, hi)| == Count(t[lo..hi], c)
    decreases hi
  {
    if lo < hi {
      ClassCount(t, c, lo, hi - 1);
      assert t[lo..hi][..hi - 1 - lo] == t[lo..hi - 1];
    }
  }

  lemma {:induction false} ClassRange(t: seq<int>, c: int, lo: nat, hi: nat)
    requires lo <= hi <= |t|
    ensures forall b :: b in InClass(t, c, lo, hi) ==> lo <= b < hi && t[b] == c
    decreases hi
  {
    if lo < hi {
      ClassRange(t, c, lo, hi - 1);
    }
  }

  /** The groups of the blocks lo..hi are numbers below count and never fall. */
  ghost predicate Rising(t: seq<int>, lo: nat, hi: nat, count: nat) {
    && hi <= |t|
    && (forall i :: lo <= i < hi ==> 0 <= t[i] < count)
    && forall i, j :: lo <= i < j < hi ==> t[i] <= t[j]
  }

  /** The blocks lo..hi of the groups before c, group by group. */
  function Gathered(t: seq<int>, c: nat, lo: nat, hi: nat): seq<nat>
    requires lo <= hi <= |t|
  {
    if c == 0 then [] else Gathered(t, c - 1, lo, hi) + InClass(t, c - 1, lo, hi)
  }

  lemma {:induction false} GatheredNone(t: seq<int>, c: nat, lo: nat)
    requires lo <= |t|
    ensures Gathered(t, c, lo, lo) == []
  {
    if c > 0 {
      GatheredNone(t, c - 1, lo);
    }
  }

  lemma {:induction false} GatheredNext(t: seq<int>, c: nat, lo: nat, hi: nat, count: nat)
    requires lo <= hi && Rising(t, lo, hi + 1, count)
    ensures Gathered(t, c, lo, hi + 1) == Gathered(t, c, lo, hi) + if t[hi] < c then [hi] else []
  {
    if c > 0 {
      GatheredNext(t, c - 1, lo, hi, count);
      if t[hi] < c - 1 {
        if InClass(t, c - 1, lo, hi) != [] {
          ClassRange(t, c - 1, lo, hi);
          assert InClass(t, c - 1, lo, hi)[0] in InClass(t, c - 1, lo, hi);
          assert false;
        }
      }
    }
  }

  /** Group by group, the blocks come in the order of their numbers. */
  lemma {:induction false} GatheredAll(t: seq<int>, lo: nat, hi: nat, count: nat)
    requires lo <= hi && Rising(t, lo, hi, count)
    ensures Gathered(t, count, lo, hi) == Interval(lo, hi - lo)
    decreases hi
  {
    hide Gathered;
    if lo == hi {
      GatheredNone(t, count, lo);
    } else {
      GatheredAll(t, lo, hi - 1, count);
      GatheredNext(t, count, lo, hi - 1, count);
    }
  }

  lemma {:induction false} GatheredAtMost(t: seq<int>, c: nat, lo: nat, hi: nat, count: nat)
    requires lo <= hi && Rising(t, lo, hi, count)
    ensures |Gathered(t, c, lo, hi)| <= hi - lo
    ensures (forall i :: lo <= i < hi ==> t[i] < c) ==> |Gathered(t, c, lo, hi)| == hi - lo
    decreases hi
  {
    hide Gathered;
    if lo == hi {
      GatheredNone(t, c, lo);
    } else {
      GatheredAtMost(t, c, lo, hi - 1, count);
      GatheredNext(t, c, lo, hi - 1, count);
    }
  }

  function Least(a: nat, b: nat): nat { if a < b then a else b }

  /** Cutting the blocks off at mid cuts the groups' blocks off after mid - lo of them. */
  lemma {:induction false} GatheredCut(t: seq<int>, c: nat, lo: nat, mid: nat, hi: nat, count: nat)
    requires lo <= mid <= hi && Rising(t, lo, hi, count)
    ensures |Gathered(t, c, lo, mid)| == Least(mid - lo, |Gathered(t, c, lo, hi)|)
    decreases hi
  {
    hide Gathered;
    if mid == hi {
      GatheredAtMost(t, c, lo, hi, count);
    } else {
      GatheredCut(t, c, lo, mid, hi - 1, count);
      GatheredNext(t, c, lo, hi - 1, count);
      if t[hi - 1] < c {
        GatheredAtMost(t, c, lo, hi - 1, count);
      }
    }
  }

  /** What is left of a group when only `room` blocks are left over for it and the groups after it. */
  lemma CutGroup(t: seq<int>, c: nat, lo: nat, mid: nat, hi: nat, count: nat)
    requires lo <= mid <= hi && Rising(t, lo, hi, count)
    ensures var room := mid - lo - |Gathered(t, c, lo, mid)|;
      && room >= 0 && |InClass(t, c, lo, mid)| == Least(room, |InClass(t, c, lo, hi)|)
      && |Gathered(t, c + 1, lo, mid)| == |Gathered(t, c, lo, mid)| + |InClass(t, c, lo, mid)|
  {
    hide InClass;
    GatheredCut(t, c, lo, mid, hi, count);
    GatheredCut(t, c + 1, lo, mid, hi, count);
  }
}
