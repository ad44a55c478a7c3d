/** Picking k independent rows out of M candidates by elimination, as get_multi_decode_plan does. Rows and
    their numbers are swapped forward together; columns without a pivot are skipped. */
module Independence {
  import opened Field
  import opened Tables
  import opened LinearAlgebra
  import opened GaussJordan

  /** The rows of the generator matrix with the given numbers. */
  function Select(gen: Mat, ids: seq<nat>): (m: Mat)
    requires forall i :: 0 <= i < |ids| ==> ids[i] < |gen|
    ensures |m| == |ids|
    ensures forall i :: 0 <= i < |ids| ==> m[i] == gen[ids[i]]
  {
    seq(|ids|, i requires 0 <= i < |ids| => gen[ids[i]])
  }

  ghost predicate VanishTo(a: Mat, x: Vec, n: nat)
    requires n <= |a| && forall i :: 0 <= i < |a| ==> |a[i]| == |x|
  {
    forall i :: 0 <= i < n ==> Dot(a[i], x, |x|) == 0
  }

  /** At x, the first cur rows of a and of o vanish together, and when they do, the remaining
      rows of a still have the values of the rows of o. */
  ghost predicate SameSpanAt(a: Mat, o: Mat, cur: nat, x: Vec)
    requires cur <= |a| == |o|
    requires forall i :: 0 <= i < |a| ==> |a[i]| == |o[i]| == |x|
  {
    && (VanishTo(a, x, cur) <==> VanishTo(o, x, cur))
    && (VanishTo(o, x, cur) ==> forall r :: cur <= r < |a| ==> Dot(a[r], x, |x|) == Dot(o[r], x, |x|))
  }

  ghost predicate SameSpan(a: Mat, o: Mat, cur: nat, k: nat)
    requires cur <= |a| == |o|
    requires forall i :: 0 <= i < |a| ==> |a[i]| == |o[i]| == k
  {
    forall x: Vec :: |x| == k ==> SameSpanAt(a, o, cur, x)
  }

  ghost predicate PivotColumn(a: Mat, t: nat, c: nat)
    requires forall i :: 0 <= i < |a| ==> c < |a[i]|
  {
    forall r :: 0 <= r < |a| ==> a[r][c] == if r == t then 1 else 0
  }

  /** piv lists the pivot columns among the first col columns; gap is one without a
      pivot, if there is any. */
  ghost predicate Echelon(a: Mat, k: nat, col: nat, piv: seq<nat>, gap: nat)
    requires forall i :: 0 <= i < |a| ==> |a[i]| == k
    requires col <= k
  {
    && |piv| <= |a| && |piv| <= col
    && (forall t :: 0 <= t < |piv| ==> piv[t] < col && PivotColumn(a, t, piv[t]))
    && (forall t, u :: 0 <= t < u < |piv| ==> piv[t] != piv[u])
    && (forall r, c :: |piv| <= r < |a| && 0 <= c < col ==> a[r][c] == 0)
    && (if |piv| == col then forall t :: 0 <= t < col ==> piv[t] == t else gap < col && gap !in piv)
  }

  // ----- one elimination step

  /** b is a after using row cur as pivot for column col in the rows before upTo. */
  ghost predicate Pivoted(a: Mat, b: Mat, k: nat, cur: nat, col: nat, c: byte, upTo: nat)
    requires IsMat(a, |a|, k) && cur < |a| && col < k
  {
    && IsMat(b, |a|, k)
    && b[cur] == Scaled(a[cur], c)
    && forall r :: 0 <= r < |a| && r != cur ==>
         b[r] == if r < upTo then PlusScaled(a[r], a[r][col], b[cur]) else a[r]
  }

  lemma PivotSpanAt(a: Mat, b: Mat, o: Mat, k: nat, cur: nat, col: nat, c: byte, x: Vec)
    requires |a| == |o| && IsMat(a, |a|, k) && IsMat(o, |a|, k) && cur < |a| && col < k && c != 0 && |x| == k
    requires Pivoted(a, b, k, cur, col, c, |a|)
    requires SameSpanAt(a, o, cur, x)
    ensures SameSpanAt(b, o, cur + 1, x)
  {
    hide Dot, Add, Mul, Scaled, PlusScaled;
    DotScaled(a[cur], c, x, k);
    var p := Dot(a[cur], x, k);
    assert Dot(b[cur], x, k) == 0 <==> p == 0 by {
      MulZero(c);
      if Mul(p, c) == 0 { MulNonzero(p, c); }
    }
    forall r | 0 <= r < |a| && r != cur && Dot(b[cur], x, k) == 0
      ensures Dot(b[r], x, k) == Dot(a[r], x, k)
    {
      DotPlusScaled(a[r], a[r][col], b[cur], x);
      MulZero(a[r][col]);
      AddZero(Dot(a[r], x, k));
    }
    if VanishTo(b, x, cur + 1) {
      assert Dot(b[cur], x, k) == 0;
      assert VanishTo(a, x, cur);
      assert VanishTo(o, x, cur + 1);
    }
    if VanishTo(o, x, cur + 1) {
      assert VanishTo(o, x, cur);
      assert Dot(o[cur], x, k) == 0;
      assert VanishTo(b, x, cur + 1);
    }
  }

  lemma PivotedShape(a: Mat, b: Mat, k: nat, cur: nat, col: nat, c: byte)
    requires IsMat(a, |a|, k) && cur < |a| && col < k && Pivoted(a, b, k, cur, col, c, |a|)
    ensures IsMat(b, |a|, k)
  {
  }

  lemma PivotSpan(a: Mat, b: Mat, o: Mat, k: nat, cur: nat, col: nat, c: byte)
    requires |a| == |o| && IsMat(a, |a|, k) && IsMat(o, |a|, k) && cur < |a| && col < k && c != 0
    requires Pivoted(a, b, k, cur, col, c, |a|)
    requires SameSpan(a, o, cur, k)
    ensures SameSpan(b, o, cur + 1, k)
  {
    hide SameSpanAt, Pivoted;
    PivotedShape(a, b, k, cur, col, c);
    forall x: Vec | |x| == k ensures SameSpanAt(b, o, cur + 1, x) {
      PivotSpanAt(a, b, o, k, cur, col, c, x);
    }
  }

  lemma SwapSpanAt(a: Mat, o: Mat, k: nat, cur: nat, sel: nat, x: Vec)
    requires |a| == |o| && IsMat(a, |a|, k) && IsMat(o, |a|, k) && cur <= sel < |a| && |x| == k
    requires SameSpanAt(a, o, cur, x)
    ensures SameSpanAt(Swapped(a, cur, sel), Swapped(o, cur, sel), cur, x)
  {
    hide Dot;
    var a', o' := Swapped(a, cur, sel), Swapped(o, cur, sel);
    assert forall i :: 0 <= i < cur ==> a'[i] == a[i] && o'[i] == o[i];
    assert forall i :: 0 <= i < cur ==> a[i] == a'[i] && o[i] == o'[i];
  }

  lemma SwapSpan(a: Mat, o: Mat, k: nat, cur: nat, sel: nat)
    requires |a| == |o| && IsMat(a, |a|, k) && IsMat(o, |a|, k) && cur <= sel < |a|
    requires SameSpan(a, o, cur, k)
    ensures SameSpan(Swapped(a, cur, sel), Swapped(o, cur, sel), cur, k)
  {
    hide SameSpanAt;
    var a', o' := Swapped(a, cur, sel), Swapped(o, cur, sel);
    forall x: Vec | |x| == k ensures SameSpanAt(a', o', cur, x) {
      SwapSpanAt(a, o, k, cur, sel, x);
    }
  }

  lemma SwapEchelon(a: Mat, k: nat, col: nat, piv: seq<nat>, gap: nat, sel: nat)
    requires IsMat(a, |a|, k) && col <= k && Echelon(a, k, col, piv, gap) && |piv| <= sel < |a|
    ensures Echelon(Swapped(a, |piv|, sel), k, col, piv, gap)
  {
    var a' := Swapped(a, |piv|, sel);
    forall t | 0 <= t < |piv| ensures PivotColumn(a', t, piv[t]) {
      assert PivotColumn(a, t, piv[t]);
    }
  }

  lemma PivotEchelon(a: Mat, b: Mat, k: nat, col: nat, piv: seq<nat>, gap: nat, c: byte)
    requires IsMat(a, |a|, k) && col < k && Echelon(a, k, col, piv, gap) && |piv| < |a|
    requires Mul(a[|piv|][col], c) == 1
    requires Pivoted(a, b, k, |piv|, col, c, |a|)
    ensures Echelon(b, k, col + 1, piv + [col], gap)
  {
    hide Add, Mul, Scaled, PlusScaled;
    var cur := |piv|;
    forall r | 0 <= r < |a|
      ensures b[r][col] == if r == cur then 1 else 0
    {
      MulOne(a[r][col]);
      AddZero(a[r][col]);
    }
    assert PivotColumn(b, cur, col);
    forall r, l | 0 <= r < |a| && 0 <= l < col && a[cur][l] == 0
      ensures b[r][l] == a[r][l]
    {
      MulZero(c);
      MulZero(a[r][col]);
      AddZero(a[r][l]);
    }
    var piv' := piv + [col];
    forall t | 0 <= t < |piv'| ensures PivotColumn(b, t, piv'[t]) {
      if t < cur {
        assert PivotColumn(a, t, piv[t]);
      }
    }
  }

  // ----- the two possible ends

  lemma Vanishing(a: Mat, o: Mat, k: nat, x: Vec)
    requires |a| == |o| && IsMat(a, |a|, k) && IsMat(o, |a|, k) && k <= |a| && |x| == k
    requires SameSpanAt(a, o, k, x) && Annihilates(o[..k], x)
    ensures forall i :: 0 <= i < k ==> Dot(a[i], x, k) == 0
  {
    hide Dot;
    forall i | 0 <= i < k ensures Dot(o[i], x, k) == 0 {
      assert o[i] == o[..k][i];
    }
    assert VanishTo(o, x, k);
    assert VanishTo(a, x, k);
  }

  lemma FullRank(a: Mat, o: Mat, k: nat, piv: seq<nat>, gap: nat)
    requires |a| == |o| && IsMat(a, |a|, k) && IsMat(o, |a|, k)
    requires Echelon(a, k, k, piv, gap) && |piv| == k && SameSpan(a, o, k, k)
    ensures TrivialKernel(o[..k], k)
  {
    hide Dot, SameSpanAt;
    forall x: Vec | |x| == k && Annihilates(o[..k], x) ensures IsZero(x) {
      assert SameSpanAt(a, o, k, x);
      Vanishing(a, o, k, x);
      forall i | 0 <= i < k ensures x[i] == 0 {
        forall c | 0 <= c < k ensures a[i][c] == Unit(k, i)[c] {
          assert PivotColumn(a, c, piv[c]);
        }
        assert a[i] == Unit(k, i);
        DotUnit(k, i, x);
      }
    }
  }

  /** The pivot columns' entries in the gap column give a vector that every row sends to zero. */
  lemma GapKernel(a: Mat, k: nat, piv: seq<nat>, gap: nat) returns (v: Vec)
    requires IsMat(a, |a|, k) && Echelon(a, k, k, piv, gap) && |piv| < k
    ensures |v| == k && !IsZero(v) && Annihilates(a, v)
  {
    hide Dot, Add, Mul, PlusScaled;
    v := seq(k, c requires 0 <= c < k =>
      if c == gap then 1 else if c in piv then (var t :| 0 <= t < |piv| && piv[t] == c; a[t][gap]) else 0);
    assert v[gap] == 1;
    assert forall t :: 0 <= t < |piv| ==> v[piv[t]] == a[t][gap];
    forall r | 0 <= r < |a| ensures Dot(a[r], v, k) == 0 {
      if r < |piv| {
        var e := Unit(k, piv[r]);
        var w := PlusScaled(e, a[r][gap], Unit(k, gap));
        forall c | 0 <= c < k ensures Mul(a[r][c], v[c]) == Mul(w[c], v[c]) {
          MulZero(a[r][c]); MulZero(w[c]); MulZero(a[r][gap]); MulOne(a[r][gap]);
          AddZero(e[c]); AddZero(a[r][gap]);
          if c != gap && c in piv {
            var t :| 0 <= t < |piv| && piv[t] == c;
            assert PivotColumn(a, t, piv[t]);
          }
        }
        DotSame(a[r], w, v, v, k);
        DotPlusScaled(e, a[r][gap], Unit(k, gap), v);
        DotUnit(k, piv[r], v);
        DotUnit(k, gap, v);
        MulOne(a[r][gap]);
        AddZero(a[r][gap]);
      } else {
        DotZero(a[r], v, k);
      }
    }
  }

  lemma RankDeficient(a: Mat, o: Mat, k: nat, piv: seq<nat>, gap: nat)
    requires |a| == |o| && IsMat(a, |a|, k) && IsMat(o, |a|, k)
    requires Echelon(a, k, k, piv, gap) && |piv| < k && SameSpan(a, o, |piv|, k)
    ensures !TrivialKernel(o, k)
  {
    hide Dot;
    var v := GapKernel(a, k, piv, gap);
    assert SameSpanAt(a, o, |piv|, v);
    assert VanishTo(a, v, |piv|);
    forall i | 0 <= i < |o| ensures Dot(o[i], v, k) == 0 {
    }
    assert Annihilates(o, v);
  }

  // ----- the elimination itself

  lemma FirstPivoted(a: Mat, k: nat, cur: nat, col: nat, c: byte)
    requires IsMat(a, |a|, k) && cur < |a| && col < k && forall l :: 0 <= l < col ==> a[cur][l] == 0
    ensures Pivoted(a, a[cur := Scaled(a[cur], c)], k, cur, col, c, 0)
    ensures forall l :: 0 <= l < col ==> Scaled(a[cur], c)[l] == 0
  {
    hide Mul;
    MulZero(c);
  }

  /** One more row; a row with a zero entry may be left as it is. */
  lemma RowPivoted(a: Mat, b: Mat, k: nat, cur: nat, col: nat, c: byte, row: nat)
    requires IsMat(a, |a|, k) && cur < |a| && col < k && row < |a| && Pivoted(a, b, k, cur, col, c, row)
    ensures IsMat(b, |a|, k)
    ensures row == cur ==> Pivoted(a, b, k, cur, col, c, row + 1)
    ensures row != cur ==> Pivoted(a, b[row := PlusScaled(b[row], b[row][col], b[cur])], k, cur, col, c, row + 1)
    ensures row != cur && b[row][col] == 0 ==> Pivoted(a, b, k, cur, col, c, row + 1)
  {
    hide Mul, Add, Scaled;
    if row != cur && b[row][col] == 0 {
      forall l | 0 <= l < k ensures a[row][l] == Add(a[row][l], Mul(0, b[cur][l])) {
        MulZero(b[cur][l]);
        AddZero(a[row][l]);
      }
      assert a[row] == PlusScaled(a[row], 0, b[cur]);
    }
  }

  /** Uses row cur as the pivot row for column col. */
  method PivotOn(mat: array2<byte>, cur: nat, col: nat)
    requires cur < mat.Length0 && col < mat.Length1 && mat[cur, col] != 0
    requires forall l :: 0 <= l < col ==> mat[cur, l] == 0
    modifies mat
    ensures Pivoted(old(Rows(mat)), Rows(mat), mat.Length1, cur, col, GfInv(old(mat[cur, col])), mat.Length0)
  {
    hide Mul, Add, GfInv, PlusScaled, Scaled, Pivoted;
    ghost var a := Rows(mat);
    var invPivot := GfInv(mat[cur, col]);
    ScaleRow(mat, cur, invPivot, col);
    FirstPivoted(a, mat.Length1, cur, col, invPivot);
    for row := 0 to mat.Length0
      invariant Pivoted(a, Rows(mat), mat.Length1, cur, col, invPivot, row)
      invariant forall l :: 0 <= l < col ==> Rows(mat)[cur][l] == 0
    {
      RowPivoted(a, Rows(mat), mat.Length1, cur, col, invPivot, row);
      if row == cur {
        continue;
      }
      var factor := mat[row, col];
      assert factor == Rows(mat)[row][col];
      if factor == 0 {
        continue;
      }
      AddScaledRow(mat, row, factor, cur, col);
    }
  }

  /** The state of the elimination: mat against the generator rows it started from. */
  ghost predicate Progress(a: Mat, gen: Mat, ids: seq<nat>, k: nat, col: nat, piv: seq<nat>, gap: nat) {
    && IsMat(a, |ids|, k) && IsMat(gen, |gen|, k) && col <= k && |piv| <= |ids|
    && (forall i :: 0 <= i < |ids| ==> ids[i] < |gen|)
    && Echelon(a, k, col, piv, gap)
    && SameSpan(a, Select(gen, ids), |piv|, k)
  }

  lemma ProgressSwap(a: Mat, gen: Mat, ids: seq<nat>, k: nat, col: nat, piv: seq<nat>, gap: nat, sel: nat)
    requires Progress(a, gen, ids, k, col, piv, gap) && |piv| <= sel < |ids|
    ensures Progress(Swapped(a, |piv|, sel), gen, Swapped(ids, |piv|, sel), k, col, piv, gap)
  {
    hide SameSpan, Echelon;
    SwapSpan(a, Select(gen, ids), k, |piv|, sel);
    SwapEchelon(a, k, col, piv, gap, sel);
    assert Select(gen, Swapped(ids, |piv|, sel)) == Swapped(Select(gen, ids), |piv|, sel);
  }

  lemma ProgressPivot(a: Mat, b: Mat, gen: Mat, ids: seq<nat>, k: nat, col: nat, piv: seq<nat>, gap: nat)
    requires Progress(a, gen, ids, k, col, piv, gap) && |piv| < |ids| && col < k && a[|piv|][col] != 0
    requires Pivoted(a, b, k, |piv|, col, GfInv(a[|piv|][col]), |ids|)
    ensures Progress(b, gen, ids, k, col + 1, piv + [col], gap)
  {
    hide SameSpan, Echelon, Pivoted, Mul, GfInv;
    PivotedShape(a, b, k, |piv|, col, GfInv(a[|piv|][col]));
    InvNonzero(a[|piv|][col]);
    PivotSpan(a, b, Select(gen, ids), k, |piv|, col, GfInv(a[|piv|][col]));
    PivotEchelon(a, b, k, col, piv, gap, GfInv(a[|piv|][col]));
  }

  lemma ProgressSkip(a: Mat, gen: Mat, ids: seq<nat>, k: nat, col: nat, piv: seq<nat>, gap: nat)
    requires Progress(a, gen, ids, k, col, piv, gap) && col < k
    requires forall r :: |piv| <= r < |a| ==> a[r][col] == 0
    ensures Progress(a, gen, ids, k, col + 1, piv, if |piv| == col then col else gap)
  {
    hide SameSpan;
    NoPivot(a, k, col, piv, gap);
  }

  lemma ProgressEnd(a: Mat, gen: Mat, ids: seq<nat>, k: nat, piv: seq<nat>, gap: nat)
    requires Progress(a, gen, ids, k, k, piv, gap)
    ensures |piv| <= k
    ensures |piv| == k ==> TrivialKernel(Select(gen, ids[..k]), k)
    ensures |piv| < k ==> !TrivialKernel(Select(gen, ids), k)
  {
    hide SameSpan, TrivialKernel;
    var o := Select(gen, ids);
    if |piv| == k {
      FullRank(a, o, k, piv, gap);
      assert o[..k] == Select(gen, ids[..k]);
    } else {
      RankDeficient(a, o, k, piv, gap);
    }
  }

  /** Finds the first row at or after cur with a nonzero entry in the column; M if there is none. */
  method FindPivot(mat: array2<byte>, cur: nat, col: nat) returns (sel: nat)
    requires cur <= mat.Length0 && col < mat.Length1
    ensures cur <= sel <= mat.Length0
    ensures forall r :: cur <= r < sel ==> mat[r, col] == 0
    ensures sel < mat.Length0 ==> mat[sel, col] != 0
  {
    sel := cur;
    while sel < mat.Length0 && mat[sel, col] == 0
      invariant cur <= sel <= mat.Length0
      invariant forall r :: cur <= r < sel ==> mat[r, col] == 0
    {
      sel := sel + 1;
    }
  }

  lemma BehindPivots(a: Mat, gen: Mat, ids: seq<nat>, k: nat, col: nat, piv: seq<nat>, gap: nat)
    requires Progress(a, gen, ids, k, col, piv, gap) && |piv| < |ids|
    ensures IsMat(a, |ids|, k) && col <= k && forall l :: 0 <= l < col ==> a[|piv|][l] == 0
  {
    hide SameSpan;
  }

  lemma StartProgress(a: Mat, gen: Mat, ids: seq<nat>, k: nat)
    requires IsMat(gen, |gen|, k) && (forall i :: 0 <= i < |ids| ==> ids[i] < |gen|) && a == Select(gen, ids)
    ensures Progress(a, gen, ids, k, 0, [], 0)
  {
    hide Dot;
  }

  lemma ProgressIds(a: Mat, gen: Mat, ids: seq<nat>, k: nat, col: nat, piv: seq<nat>, gap: nat)
    requires Progress(a, gen, ids, k, col, piv, gap)
    ensures forall i :: 0 <= i < |ids| ==> ids[i] < |gen|
  {
  }

  /** One column of the elimination: skipped if no remaining row has an entry in it. */
  method EliminateColumn(mat: array2<byte>, rowIds: seq<nat>, cur: nat, k: nat, col: nat,
      ghost gen: Mat, ghost piv: seq<nat>, ghost gap: nat)
    returns (candidates: seq<nat>, pivoted: bool, ghost newGap: nat)
    requires mat.Length0 == |rowIds| && mat.Length1 == k && |piv| == cur < |rowIds| && col < k
    requires Progress(Rows(mat), gen, rowIds, k, col, piv, gap)
    modifies mat
    ensures |candidates| == |rowIds| && multiset(candidates) == multiset(rowIds)
    ensures Progress(Rows(mat), gen, candidates, k, col + 1, if pivoted then piv + [col] else piv, newGap)
  {
    hide Mul, Add, GfInv, Progress, Pivoted, Swapped, Select;
    candidates, newGap := rowIds, gap;
    var sel := FindPivot(mat, cur, col);
    assert forall r :: 0 <= r < |rowIds| ==> Rows(mat)[r][col] == mat[r, col];
    if sel == |rowIds| {
      ProgressSkip(Rows(mat), gen, candidates, k, col, piv, gap);
      newGap := if cur == col then col else gap;
      pivoted := false;
      return;
    }
    if sel != cur {
      ProgressSwap(Rows(mat), gen, candidates, k, col, piv, gap, sel);
      SwapRows(mat, cur, sel);
      candidates := SwapIds(candidates, cur, sel);
    }
    ghost var a := Rows(mat);
    assert mat[cur, col] == a[cur][col] != 0;
    BehindPivots(a, gen, candidates, k, col, piv, gap);
    assert forall l :: 0 <= l < col ==> mat[cur, l] == a[cur][l];
    PivotOn(mat, cur, col);
    ProgressPivot(a, Rows(mat), gen, candidates, k, col, piv, gap);
    pivoted := true;
  }

  /** Moves k independent candidates to the front, if there are that many. */
  method EliminateRows(mat: array2<byte>, rowIds: seq<nat>, k: nat, ghost gen: Mat)
    returns (candidates: seq<nat>, cur: nat)
    requires forall i :: 0 <= i < |rowIds| ==> rowIds[i] < |gen|
    requires IsMat(gen, |gen|, k)
    requires mat.Length0 == |rowIds| >= k && mat.Length1 == k
    requires Rows(mat) == Select(gen, rowIds)
    modifies mat
    ensures multiset(candidates) == multiset(rowIds) && |candidates| == |rowIds|
    ensures forall i :: 0 <= i < |candidates| ==> candidates[i] < |gen|
    ensures cur <= k
    ensures cur == k ==> TrivialKernel(Select(gen, candidates[..k]), k)
    ensures cur < k ==> !TrivialKernel(Select(gen, candidates), k)
  {
    hide Progress, TrivialKernel, Select;
    candidates, cur := rowIds, 0;
    ghost var piv: seq<nat>, gap: nat := [], 0;
    StartProgress(Rows(mat), gen, candidates, k);
    var col := 0;
    while col < k && cur < |rowIds|
      invariant cur == |piv| <= col <= k && cur <= |rowIds| == |candidates|
      invariant multiset(candidates) == multiset(rowIds)
      invariant Progress(Rows(mat), gen, candidates, k, col, piv, gap)
    {
      var pivoted;
      candidates, pivoted, gap := EliminateColumn(mat, candidates, cur, k, col, gen, piv, gap);
      if pivoted {
        piv := piv + [col];
        cur := cur + 1;
      }
      col := col + 1;
    }
    ProgressIds(Rows(mat), gen, candidates, k, col, piv, gap);
    ProgressEnd(Rows(mat), gen, candidates, k, piv, gap);
  }

  method SwapIds(ids: seq<nat>, i: nat, j: nat) returns (res: seq<nat>)
    requires i < |ids| && j < |ids|
    ensures res == Swapped(ids, i, j) && |res| == |ids| && multiset(res) == multiset(ids)
  {
    var tmp := ids[i];
    res := ids[i := ids[j]];
    res := res[j := tmp];
  }

  lemma NoPivot(a: Mat, k: nat, col: nat, piv: seq<nat>, gap: nat)
    requires IsMat(a, |a|, k) && col < k && Echelon(a, k, col, piv, gap)
    requires forall r :: |piv| <= r < |a| ==> a[r][col] == 0
    ensures Echelon(a, k, col + 1, piv, if |piv| == col then col else gap)
  {
  }
}
