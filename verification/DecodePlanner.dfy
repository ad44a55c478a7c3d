/** Planning a multi-block decode (get_multi_decode_plan): choose k independent surviving
    rows of the generator matrix, invert them, and express every failed row by them. */
module DecodePlanner {
  import opened Arithmetic
  import opened Field
  import opened Tables
  import opened LinearAlgebra
  import opened GaussJordan
  import opened Independence

  datatype Option<+T> = None | Some(value: T)

  /** The blocks to read and, for each failed block, one factor per block read. */
  datatype Plan = Plan(sources: seq<nat>, factors: seq<Vec>)

  // ----- which rows are considered

  function AsSet(ids: seq<nat>): (s: set<nat>)
    ensures forall i :: i in s <==> i in ids
  {
    set i | i in ids
  }

  /** The numbers in [lo, hi) that did not fail, ascending. */
  function Survivors(lo: nat, hi: nat, failed: set<nat>): seq<nat>
    requires lo <= hi
    decreases hi
  {
    if lo == hi then []
    else if hi - 1 in failed then Survivors(lo, hi - 1, failed)
    else Survivors(lo, hi - 1, failed) + [hi - 1]
  }

  ghost predicate Ascending(ids: seq<nat>) {
    forall i, j :: 0 <= i < j < |ids| ==> ids[i] < ids[j]
  }

  /** A list in ascending order is determined by its members. */
  lemma {:induction false} AscendingUnique(a: seq<nat>, b: seq<nat>)
    requires Ascending(a) && Ascending(b) && forall i :: i in a <==> i in b
    ensures a == b
  {
    assert a == [] || a[0] in a;
    assert b == [] || b[0] in b;
    if a == [] || b == [] {
    } else {
      var m, n := |a| - 1, |b| - 1;
      assert a[m] in b && b[n] in a;
      assert a[m] == b[n];
      forall i | i in a[..m] ensures i in b[..n] {
        assert i in a && i != b[n];
      }
      forall i | i in b[..n] ensures i in a[..m] {
        assert i in b && i != a[m];
      }
      AscendingUnique(a[..m], b[..n]);
      assert a == a[..m] + [a[m]] && b == b[..n] + [b[n]];
    }
  }

  lemma {:induction false} SurvivorsSound(lo: nat, hi: nat, failed: set<nat>)
    requires lo <= hi
    ensures forall b :: b in Survivors(lo, hi, failed) <==> lo <= b < hi && b !in failed
    ensures Ascending(Survivors(lo, hi, failed))
    decreases hi
  {
    if lo == hi {
    } else {
      SurvivorsSound(lo, hi - 1, failed);
      var s := Survivors(lo, hi - 1, failed);
      assert forall i :: 0 <= i < |s| ==> s[i] in s;
    }
  }

  /** The survivors with numbers below n. */
  ghost function Below(n: nat, failed: set<nat>): set<nat> {
    set i: nat | i < n && i !in failed
  }

  /** The rows that are considered: every surviving data block and global parity, and a surviving local parity when fewer than
      k blocks with lower numbers survive. */
  ghost function Considered(k: nat, r: nat, z: nat, failed: set<nat>): set<nat> {
    set b: nat | b < k + r + z && b !in failed && (b < k + r || |Below(b, failed)| < k)
  }

  /** Data that these rows send to zero is zero. */
  ghost predicate RowsDetermine(g: Mat, rows: set<nat>, k: nat)
    requires IsMat(g, |g|, k) && forall b :: b in rows ==> b < |g|
  {
    forall x: Vec :: |x| == k && SentToZero(g, rows, x) ==> IsZero(x)
  }

  ghost predicate SentToZero(g: Mat, rows: set<nat>, x: Vec)
    requires IsMat(g, |g|, |x|) && forall b :: b in rows ==> b < |g|
  {
    forall b :: b in rows ==> Dot(g[b], x, |x|) == 0
  }

  /** At least k blocks survive, and the rows considered determine the data. */
  ghost predicate Plannable(g: Mat, k: nat, r: nat, z: nat, failed: set<nat>)
    requires IsMat(g, k + r + z, k)
  {
    |Below(k + r + z, failed)| >= k && RowsDetermine(g, Considered(k, r, z, failed), k)
  }

  lemma {:induction false} SurvivorsCount(n: nat, failed: set<nat>)
    ensures |Survivors(0, n, failed)| == |Below(n, failed)|
  {
    if n == 0 {
      assert Below(0, failed) == {};
    } else {
      SurvivorsCount(n - 1, failed);
      assert Below(n, failed) == Below(n - 1, failed) + if n - 1 in failed then {} else {n - 1};
    }
  }

  lemma BelowIs(n: nat, failed: set<nat>)
    ensures forall b :: b in Below(n, failed) <==> 0 <= b < n && b !in failed
  {
  }

  lemma BelowGrows(m: nat, n: nat, failed: set<nat>)
    requires m <= n
    ensures |Below(m, failed)| <= |Below(n, failed)|
  {
    SubsetSize(Below(m, failed), Below(n, failed));
  }

  /** Where the collecting loops end, what they have collected is what is to be considered. */
  lemma CandidatesSound(k: nat, r: nat, z: nat, failed: set<nat>, end: nat)
    requires k + r <= end <= k + r + z
    requires if |Below(end, failed)| < k then end == k + r + z else end == k + r || |Below(end - 1, failed)| < k
    ensures Below(end, failed) == Considered(k, r, z, failed)
    ensures |Below(end, failed)| >= k <==> |Below(k + r + z, failed)| >= k
  {
    BelowGrows(end, k + r + z, failed);
    forall b: nat | k + r <= b < k + r + z ensures |Below(b, failed)| < k <==> b < end {
      if b < end {
        BelowGrows(b, end - 1, failed);
        BelowGrows(b, end, failed);
      } else {
        BelowGrows(end, b, failed);
      }
    }
  }

  lemma {:induction false} SurvivorsPrefix(lo: nat, mid: nat, hi: nat, failed: set<nat>)
    requires lo <= mid <= hi
    ensures Survivors(lo, mid, failed) <= Survivors(lo, hi, failed)
    decreases hi
  {
    if mid == hi {
    } else {
      SurvivorsPrefix(lo, mid, hi - 1, failed);
      PrefixGrow(Survivors(lo, mid, failed), Survivors(lo, hi - 1, failed), hi - 1);
    }
  }

  lemma PrefixGrow(a: seq<nat>, b: seq<nat>, v: nat)
    requires a <= b
    ensures a <= b + [v]
  {
  }

  method CollectCandidates(k: nat, r: nat, z: nat, failed: set<nat>) returns (candidates: seq<nat>)
    ensures Ascending(candidates) && forall b :: b in candidates <==> b in Considered(k, r, z, failed)
    ensures |candidates| >= k <==> |Below(k + r + z, failed)| >= k
  {
    hide Ascending, Below, Considered;
    candidates := [];
    for i := 0 to k + r
      invariant candidates == Survivors(0, i, failed)
    {
      if i !in failed {
        candidates := candidates + [i];
      }
    }
    var i := k + r;
    SurvivorsCount(i, failed);
    if |candidates| < k {
      while i < k + r + z
        invariant k + r <= i <= k + r + z
        invariant candidates == Survivors(0, i, failed) && |candidates| == |Below(i, failed)| < k
      {
        if i !in failed {
          candidates := candidates + [i];
        }
        i := i + 1;
        SurvivorsCount(i, failed);
        if |candidates| >= k {
          break;
        }
      }
    }
    SurvivorsSound(0, i, failed);
    CandidatesSound(k, r, z, failed, i);
    BelowIs(i, failed);
  }

  // ----- the coefficients

  /** dest = vect * matrix */
  method GfMulVectMatrix(vect: Vec, matrix: array2<byte>, dest: array<byte>, k: nat)
    requires |vect| == k == matrix.Length0 == matrix.Length1 == dest.Length
    modifies dest
    ensures dest[..] == Combine(vect, Rows(matrix), k, k)
  {
    for i := 0 to k
      invariant forall c :: 0 <= c < i ==> dest[c] == Dot(vect, Column(Rows(matrix), k, c), k)
    {
      MulVectColumn(vect, matrix, dest, k, i);
    }
  }

  method MulVectColumn(vect: Vec, matrix: array2<byte>, dest: array<byte>, k: nat, i: nat)
    requires |vect| == k == matrix.Length0 == matrix.Length1 == dest.Length && i < k
    modifies dest
    ensures dest[i] == Dot(vect, Column(Rows(matrix), k, i), k)
    ensures forall c :: 0 <= c < k && c != i ==> dest[c] == old(dest[c])
  {
    hide Mul, Add, GfMul, Column;
    dest[i] := 0;
    for j := 0 to k
      invariant dest[i] == Dot(vect, Column(Rows(matrix), k, i), j)
      invariant forall c :: 0 <= c < k && c != i ==> dest[c] == old(dest[c])
    {
      assert Column(Rows(matrix), k, i)[j] == Rows(matrix)[j][i] == matrix[j, i];
      dest[i] := Add(dest[i], GfMul(vect[j], matrix[j, i]));
    }
  }

  /** The plan reads k distinct surviving blocks, and for every data vector each failed block is the
      factor-weighted sum of the blocks read. */
  ghost predicate ValidPlan(gen: Mat, k: nat, failed: seq<nat>, plan: Plan)
    requires IsMat(gen, |gen|, k) && forall t :: 0 <= t < |failed| ==> failed[t] < |gen|
  {
    && |plan.sources| == k && |plan.factors| == |failed|
    && (forall i :: 0 <= i < k ==> plan.sources[i] < |gen| && plan.sources[i] !in failed)
    && (forall i, j :: 0 <= i < j < k ==> plan.sources[i] != plan.sources[j])
    && (forall t :: 0 <= t < |failed| ==> |plan.factors[t]| == k)
    && forall t, x: Vec :: 0 <= t < |failed| && |x| == k ==>
         Dot(gen[failed[t]], x, k) == Dot(plan.factors[t], Apply(Select(gen, plan.sources), x), k)
  }

  lemma FactorsDecode(g: Vec, inv: Mat, chosen: Mat, k: nat, x: Vec)
    requires |g| == k == |x| && IsMat(inv, k, k) && IsMat(chosen, k, k) && LeftInverse(inv, chosen, k)
    ensures Dot(g, x, k) == Dot(Combine(g, inv, k, k), Apply(chosen, x), k)
  {
    hide Dot, Combine, Apply;
    CombineApply(g, inv, k, Apply(chosen, x));
  }

  lemma Distinct(before: seq<nat>, after: seq<nat>)
    requires multiset(before) == multiset(after)
    requires Ascending(before)
    ensures forall i, j :: 0 <= i < j < |after| ==> after[i] != after[j]
    ensures forall i :: 0 <= i < |after| ==> after[i] in before
  {
    forall i | 0 <= i < |after| ensures after[i] in before {
      assert after[i] in multiset(after);
    }
    forall i, j | 0 <= i < j < |after| ensures after[i] != after[j] {
      if after[i] == after[j] {
        SplitTwo(after, i, j);
        OnlyOnce(before, after[i]);
      }
    }
  }

  lemma SplitTwo(s: seq<nat>, i: nat, j: nat)
    requires i < j < |s| && s[i] == s[j]
    ensures multiset(s)[s[i]] >= 2
  {
    assert s == s[..j] + [s[j]] + s[j + 1..];
    assert s[..j] == s[..i] + [s[i]] + s[i + 1..j];
  }

  lemma {:induction false} OnlyOnce(s: seq<nat>, v: nat)
    requires Ascending(s)
    ensures multiset(s)[v] <= 1
  {
    if s == [] {
    } else {
      var n := |s| - 1;
      assert s == s[..n] + [s[n]];
      OnlyOnce(s[..n], v);
      if v == s[n] {
        assert v !in s[..n];
      }
    }
  }

  /** The rows that elimination brings to the front are distinct survivors. */
  lemma ChosenRows(rowIds: seq<nat>, candidates: seq<nat>, k: nat, n: nat, failed: seq<nat>)
    requires multiset(rowIds) == multiset(candidates) && Ascending(rowIds) && k <= |candidates|
    requires forall b :: b in rowIds ==> b < n && b !in AsSet(failed)
    ensures forall i :: 0 <= i < k ==> candidates[..k][i] < n && candidates[..k][i] !in failed
    ensures forall i, j :: 0 <= i < j < k ==> candidates[..k][i] != candidates[..k][j]
  {
    hide Ascending;
    Distinct(rowIds, candidates);
  }

  lemma PlanIsValid(g: Mat, k: nat, failed: seq<nat>, chosen: seq<nat>, factors: seq<Vec>)
    requires IsMat(g, |g|, k) && |chosen| == k && |factors| == |failed|
    requires forall t :: 0 <= t < |failed| ==> failed[t] < |g| && |factors[t]| == k
    requires forall i :: 0 <= i < k ==> chosen[i] < |g| && chosen[i] !in failed
    requires forall i, j :: 0 <= i < j < k ==> chosen[i] != chosen[j]
    requires forall t, x: Vec :: 0 <= t < |failed| && |x| == k ==>
      Dot(g[failed[t]], x, k) == Dot(factors[t], Apply(Select(g, chosen), x), k)
    ensures ValidPlan(g, k, failed, Plan(chosen, factors))
  {
    hide Dot, Apply, Select;
  }

  lemma ConsideredRange(k: nat, r: nat, z: nat, failed: set<nat>)
    ensures forall b :: b in Considered(k, r, z, failed) ==> b < k + r + z && b !in failed
  {
  }

  lemma KernelOfRows(g: Mat, ids: seq<nat>, rows: set<nat>, k: nat)
    requires IsMat(g, |g|, k) && (forall b :: b in ids <==> b in rows)
    requires (forall b :: b in rows ==> b < |g|) && forall i :: 0 <= i < |ids| ==> ids[i] < |g|
    ensures TrivialKernel(Select(g, ids), k) <==> RowsDetermine(g, rows, k)
  {
    hide Dot, IsZero;
    forall x: Vec | |x| == k ensures Annihilates(Select(g, ids), x) <==> SentToZero(g, rows, x) {
      if Annihilates(Select(g, ids), x) {
        forall b | b in rows ensures Dot(g[b], x, k) == 0 {
          var i :| 0 <= i < |ids| && ids[i] == b;
          assert Select(g, ids)[i] == g[b];
        }
      }
      if SentToZero(g, rows, x) {
        forall i | 0 <= i < |ids| ensures Dot(Select(g, ids)[i], x, k) == 0 {
          assert ids[i] in ids;
        }
      }
    }
  }

  /** A plan is found exactly if at least k blocks survive and the rows considered determine the data; a plan that is found
      is valid. Failed blocks may be listed more than once. */
  method PlanDecoding(gen: array2<byte>, k: nat, r: nat, z: nat, failed: seq<nat>) returns (plan: Option<Plan>)
    requires gen.Length0 == k + r + z && gen.Length1 == k
    requires forall t :: 0 <= t < |failed| ==> failed[t] < k + r + z
    ensures plan.Some? ==> ValidPlan(Rows(gen), k, failed, plan.value)
    ensures plan.Some? <==> Plannable(Rows(gen), k, r, z, AsSet(failed))
  {
    hide TrivialKernel, Below, Considered, RowsDetermine, Select, ValidPlan, Ascending;
    ghost var g := Rows(gen);
    var failedSet := AsSet(failed);
    var rowIds := CollectCandidates(k, r, z, failedSet);
    ghost var rows := Considered(k, r, z, failedSet);
    ConsideredRange(k, r, z, failedSet);
    assert forall i :: 0 <= i < |rowIds| ==> rowIds[i] in rowIds;
    KernelOfRows(g, rowIds, rows, k);
    if |rowIds| < k {
      return None;
    }
    var mat := CopyRows(gen, rowIds, k);
    var candidates, cur := EliminateRows(mat, rowIds, k, g);
    PermutedKernel(g, rowIds, candidates, k);
    if cur < k {
      return None;
    }
    var chosen := candidates[..k];
    PrefixKernel(g, candidates, k);
    ChosenRows(rowIds, candidates, k, k + r + z, failed);
    var factors := InvertChosen(gen, k, chosen, failed);
    plan := Some(Plan(chosen, factors));
    PlanIsValid(g, k, failed, chosen, factors);
  }

  /** The coefficients of the failed rows over the chosen rows. The inversion cannot fail, because the
      chosen rows are independent: the branch the source marks unexpected is unreachable. */
  method InvertChosen(gen: array2<byte>, k: nat, chosen: seq<nat>, failed: seq<nat>) returns (factors: seq<Vec>)
    requires gen.Length1 == k == |chosen|
    requires forall i :: 0 <= i < k ==> chosen[i] < gen.Length0
    requires forall t :: 0 <= t < |failed| ==> failed[t] < gen.Length0
    requires TrivialKernel(Select(Rows(gen), chosen), k)
    ensures |factors| == |failed| && forall t :: 0 <= t < |failed| ==> |factors[t]| == k
    ensures forall t, x: Vec :: 0 <= t < |failed| && |x| == k ==>
      Dot(Rows(gen)[failed[t]], x, k) == Dot(factors[t], Apply(Select(Rows(gen), chosen), x), k)
  {
    hide Dot, Apply, Combine, TrivialKernel, LeftInverse, Select;
    ghost var g := Rows(gen);
    var tempM := CopyRows(gen, chosen, k);
    var invM := new byte[k, k];
    var res := GfInvertMatrix(tempM, invM, k);
    if res != 0 {
      assert false;
    }
    ghost var inv := Rows(invM);
    factors := [];
    for t := 0 to |failed|
      invariant |factors| == t && Rows(invM) == inv
      invariant forall u :: 0 <= u < t ==> factors[u] == Combine(g[failed[u]], inv, k, k)
    {
      var coeff := new byte[k];
      var row := RowOf(gen, failed[t]);
      GfMulVectMatrix(row, invM, coeff, k);
      factors := factors + [coeff[..]];
    }
    forall t, x: Vec | 0 <= t < |failed| && |x| == k
      ensures Dot(g[failed[t]], x, k) == Dot(factors[t], Apply(Select(g, chosen), x), k)
    {
      FactorsDecode(g[failed[t]], inv, Select(g, chosen), k, x);
    }
  }

  method CopyRows(gen: array2<byte>, ids: seq<nat>, k: nat) returns (mat: array2<byte>)
    requires gen.Length1 == k && forall i :: 0 <= i < |ids| ==> ids[i] < gen.Length0
    ensures fresh(mat) && mat.Length0 == |ids| && mat.Length1 == k
    ensures Rows(mat) == Select(Rows(gen), ids)
  {
    mat := new byte[|ids|, k];
    for i := 0 to |ids|
      invariant forall r, c :: 0 <= r < i && 0 <= c < k ==> mat[r, c] == gen[ids[r], c]
    {
      for c := 0 to k
        invariant forall r, c :: 0 <= r < i && 0 <= c < k ==> mat[r, c] == gen[ids[r], c]
        invariant forall l :: 0 <= l < c ==> mat[i, l] == gen[ids[i], l]
      {
        mat[i, c] := gen[ids[i], c];
      }
    }
    assert forall i :: 0 <= i < |ids| ==> Row(mat, i) == Select(Rows(gen), ids)[i];
  }

  method RowOf(gen: array2<byte>, i: nat) returns (row: Vec)
    requires i < gen.Length0
    ensures row == Row(gen, i)
  {
    row := seq(gen.Length1, j requires 0 <= j < gen.Length1 reads gen => gen[i, j]);
  }

  lemma PermutedKernel(g: Mat, a: seq<nat>, b: seq<nat>, k: nat)
    requires IsMat(g, |g|, k) && multiset(a) == multiset(b)
    requires forall i :: 0 <= i < |a| ==> a[i] < |g|
    requires forall i :: 0 <= i < |b| ==> b[i] < |g|
    ensures TrivialKernel(Select(g, a), k) <==> TrivialKernel(Select(g, b), k)
  {
    PermutedAnnihilates(g, a, b, k);
    PermutedAnnihilates(g, b, a, k);
  }

  lemma PermutedAnnihilates(g: Mat, a: seq<nat>, b: seq<nat>, k: nat)
    requires IsMat(g, |g|, k) && forall i :: 0 <= i < |b| ==> b[i] in multiset(a)
    requires forall i :: 0 <= i < |a| ==> a[i] < |g|
    requires forall i :: 0 <= i < |b| ==> b[i] < |g|
    ensures forall x: Vec :: |x| == k && Annihilates(Select(g, a), x) ==> Annihilates(Select(g, b), x)
  {
    hide Dot;
    forall x: Vec | |x| == k && Annihilates(Select(g, a), x) ensures Annihilates(Select(g, b), x) {
      forall i | 0 <= i < |b| ensures Dot(Select(g, b)[i], x, k) == 0 {
        assert b[i] in multiset(a);
        var j :| 0 <= j < |a| && a[j] == b[i];
        assert Select(g, a)[j] == Select(g, b)[i];
      }
    }
  }

  /** More rows can only shrink the kernel. */
  lemma PrefixKernel(g: Mat, ids: seq<nat>, k: nat)
    requires IsMat(g, |g|, k) && k <= |ids|
    requires forall i :: 0 <= i < |ids| ==> ids[i] < |g|
    ensures TrivialKernel(Select(g, ids[..k]), k) ==> TrivialKernel(Select(g, ids), k)
  {
    forall i | 0 <= i < k ensures ids[..k][i] in multiset(ids) {
      assert ids[..k][i] == ids[i];
    }
    PermutedAnnihilates(g, ids, ids[..k], k);
  }
}
