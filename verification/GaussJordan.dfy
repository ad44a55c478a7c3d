/** In-place matrix inversion by Gauss-Jordan elimination (gf_invert_matrix). A row-major byte buffer
    is an array2 here. The matrix under elimination always equals the output
    matrix times the original one, and no step adds anything to its kernel. */
module GaussJordan {
  import opened Field
  import opened Tables
  import opened LinearAlgebra

  ghost function Row(m: array2<byte>, i: nat): (u: Vec)
    requires i < m.Length0
    reads m
    ensures |u| == m.Length1
    ensures forall j :: 0 <= j < m.Length1 ==> u[j] == m[i, j]
  {
    seq(m.Length1, j requires 0 <= j < m.Length1 reads m => m[i, j])
  }

  ghost function Rows(m: array2<byte>): (a: Mat)
    reads m
    ensures IsMat(a, m.Length0, m.Length1)
    ensures forall i :: 0 <= i < m.Length0 ==> a[i] == Row(m, i)
  {
    seq(m.Length0, i requires 0 <= i < m.Length0 reads m => Row(m, i))
  }

  // ----- the three elementary row operations

  method SwapRows(m: array2<byte>, i: nat, j: nat)
    requires i < m.Length0 && j < m.Length0
    modifies m
    ensures Rows(m) == Swapped(old(Rows(m)), i, j)
  {
    for k := 0 to m.Length1
      invariant forall r, c :: 0 <= r < m.Length0 && 0 <= c < m.Length1 ==>
        m[r, c] == old(m[if c >= k then r else if r == i then j else if r == j then i else r, c])
    {
      var temp := m[i, k];
      m[i, k] := m[j, k];
      m[j, k] := temp;
    }
    assert forall r :: 0 <= r < m.Length0 ==>
      Row(m, r) == Swapped(old(Rows(m)), i, j)[r];
  }

  /** The columns before `from`, where row i is zero, are skipped. */
  method ScaleRow(m: array2<byte>, i: nat, c: byte, from: nat)
    requires i < m.Length0 && from <= m.Length1
    requires forall l :: 0 <= l < from ==> m[i, l] == 0
    modifies m
    ensures Rows(m) == old(Rows(m))[i := Scaled(old(Row(m, i)), c)]
  {
    hide Mul, GfMul;
    MulZero(c);
    for k := from to m.Length1
      invariant forall r, l :: 0 <= r < m.Length0 && 0 <= l < m.Length1 ==>
        m[r, l] == if r == i && l < k then Mul(old(m[i, l]), c) else old(m[r, l])
    {
      m[i, k] := GfMul(m[i, k], c);
    }
    assert forall r :: 0 <= r < m.Length0 ==> Row(m, r) == old(Rows(m))[i := Scaled(old(Row(m, i)), c)][r];
  }

  /** Row j += c * row i, from a column on before which row i is zero. */
  method AddScaledRow(m: array2<byte>, j: nat, c: byte, i: nat, from: nat)
    requires i < m.Length0 && j < m.Length0 && i != j && from <= m.Length1
    requires forall l :: 0 <= l < from ==> m[i, l] == 0
    modifies m
    ensures Rows(m) == old(Rows(m))[j := PlusScaled(old(Row(m, j)), c, old(Row(m, i)))]
  {
    hide Mul, Add, GfMul;
    MulZero(c);
    forall l | 0 <= l < from ensures m[j, l] == Add(m[j, l], Mul(c, m[i, l])) {
      AddZero(m[j, l]);
    }
    for k := from to m.Length1
      invariant forall r, l :: 0 <= r < m.Length0 && 0 <= l < m.Length1 ==>
        m[r, l] == if r == j && l < k then Add(old(m[j, l]), Mul(c, old(m[i, l]))) else old(m[r, l])
    {
      m[j, k] := Add(m[j, k], GfMul(c, m[i, k]));
    }
    assert forall r :: 0 <= r < m.Length0 ==>
      Row(m, r) == old(Rows(m))[j := PlusScaled(old(Row(m, j)), c, old(Row(m, i)))][r];
  }

  // ----- what every row operation keeps

  /** Row a of the matrix under elimination is row b of the output matrix times o. */
  ghost predicate Tracks(a: Vec, b: Vec, o: Mat, n: nat)
    requires IsMat(o, n, n) && |a| == |b| == n
  {
    forall x: Vec :: |x| == n ==> Dot(a, x, n) == Dot(b, Apply(o, x), n)
  }

  ghost predicate KernelWithin(a: Mat, o: Mat, n: nat)
    requires IsMat(o, n, n) && IsMat(a, n, n)
  {
    forall x: Vec :: |x| == n && Annihilates(a, x) ==> Annihilates(o, x)
  }

  ghost predicate Equivalent(a: Mat, b: Mat, o: Mat, n: nat)
    requires IsMat(o, n, n)
  {
    && IsMat(a, n, n) && IsMat(b, n, n)
    && (forall i :: 0 <= i < n ==> Tracks(a[i], b[i], o, n))
    && KernelWithin(a, o, n) && TrivialKernel(b, n)
  }

  ghost predicate UnitColumn(a: Mat, n: nat, c: nat)
    requires IsMat(a, n, n) && c < n
  {
    forall i :: 0 <= i < n ==> a[i][c] == if i == c then 1 else 0
  }

  ghost predicate UnitColumns(a: Mat, n: nat, upTo: nat)
    requires IsMat(a, n, n) && upTo <= n
  {
    forall c :: 0 <= c < upTo ==> UnitColumn(a, n, c)
  }

  lemma StartEquivalent(o: Mat, b: Mat, n: nat)
    requires IsMat(o, n, n) && IsIdentity(b, n)
    ensures Equivalent(o, b, o, n)
  {
    hide Dot, Apply;
    forall x: Vec | |x| == n && Annihilates(b, x) ensures IsZero(x) {
      IdentityApply(b, n, x);
      assert forall i :: 0 <= i < n ==> Apply(b, x)[i] == 0;
    }
    forall i, x: Vec | 0 <= i < n && |x| == n
      ensures Dot(o[i], x, n) == Dot(b[i], Apply(o, x), n)
    {
      assert b[i] == Unit(n, i);
      DotUnit(n, i, Apply(o, x));
    }
  }

  lemma TracksScaled(a: Vec, b: Vec, o: Mat, n: nat, c: byte)
    requires IsMat(o, n, n) && |a| == |b| == n && Tracks(a, b, o, n)
    ensures Tracks(Scaled(a, c), Scaled(b, c), o, n)
  {
    hide Dot, Mul, Apply, Scaled;
    forall x: Vec | |x| == n ensures Dot(Scaled(a, c), x, n) == Dot(Scaled(b, c), Apply(o, x), n) {
      DotScaled(a, c, x, n);
      DotScaled(b, c, Apply(o, x), n);
    }
  }

  lemma TracksPlusScaled(a: Vec, b: Vec, o: Mat, n: nat, c: byte, a1: Vec, b1: Vec)
    requires IsMat(o, n, n) && |a| == |b| == |a1| == |b1| == n
    requires Tracks(a, b, o, n) && Tracks(a1, b1, o, n)
    ensures Tracks(PlusScaled(a, c, a1), PlusScaled(b, c, b1), o, n)
  {
    hide Dot, Mul, Add, Apply, PlusScaled;
    forall x: Vec | |x| == n
      ensures Dot(PlusScaled(a, c, a1), x, n) == Dot(PlusScaled(b, c, b1), Apply(o, x), n)
    {
      DotPlusScaled(a, c, a1, x);
      DotPlusScaled(b, c, b1, Apply(o, x));
    }
  }

  lemma SwapKernel(a: Mat, n: nat, i: nat, j: nat, x: Vec)
    requires IsMat(a, n, n) && i < n && j < n && |x| == n
    requires Annihilates(Swapped(a, i, j), x)
    ensures Annihilates(a, x)
  {
    hide Dot;
    var a' := Swapped(a, i, j);
    forall r | 0 <= r < n ensures Dot(a[r], x, n) == 0 {
      assert a[r] == a'[if r == i then j else if r == j then i else r];
    }
  }

  lemma ScaleKernel(a: Mat, n: nat, i: nat, c: byte, x: Vec)
    requires IsMat(a, n, n) && i < n && c != 0 && |x| == n
    requires Annihilates(a[i := Scaled(a[i], c)], x)
    ensures Annihilates(a, x)
  {
    hide Dot, Mul, Scaled;
    var a' := a[i := Scaled(a[i], c)];
    forall r | 0 <= r < n ensures Dot(a[r], x, n) == 0 {
      assert Dot(a'[r], x, n) == 0;
      if r == i {
        DotScaled(a[i], c, x, n);
        MulNonzero(Dot(a[i], x, n), c);
      }
    }
  }

  lemma AddKernel(a: Mat, n: nat, j: nat, c: byte, i: nat, x: Vec)
    requires IsMat(a, n, n) && i < n && j < n && i != j && |x| == n
    requires Annihilates(a[j := PlusScaled(a[j], c, a[i])], x)
    ensures Annihilates(a, x)
  {
    hide Dot, Mul, Add, PlusScaled;
    var a' := a[j := PlusScaled(a[j], c, a[i])];
    forall r | 0 <= r < n ensures Dot(a[r], x, n) == 0 {
      assert Dot(a'[r], x, n) == 0;
      if r == j {
        assert Dot(a'[i], x, n) == 0;
        DotPlusScaled(a[j], c, a[i], x);
        MulZero(c);
        AddZero(Dot(a[j], x, n));
      }
    }
  }

  lemma SwapKeeps(a: Mat, b: Mat, o: Mat, n: nat, i: nat, j: nat)
    requires IsMat(o, n, n) && Equivalent(a, b, o, n) && i < n && j < n
    ensures Equivalent(Swapped(a, i, j), Swapped(b, i, j), o, n)
  {
    hide Tracks, Annihilates;
    forall x: Vec | |x| == n && Annihilates(Swapped(a, i, j), x) ensures Annihilates(o, x) {
      SwapKernel(a, n, i, j, x);
    }
    forall x: Vec | |x| == n && Annihilates(Swapped(b, i, j), x) ensures IsZero(x) {
      SwapKernel(b, n, i, j, x);
    }
  }

  lemma ScaleKeeps(a: Mat, b: Mat, o: Mat, n: nat, i: nat, c: byte)
    requires IsMat(o, n, n) && Equivalent(a, b, o, n) && i < n && c != 0
    ensures Equivalent(a[i := Scaled(a[i], c)], b[i := Scaled(b[i], c)], o, n)
  {
    hide Tracks, Annihilates, Scaled;
    TracksScaled(a[i], b[i], o, n, c);
    forall x: Vec | |x| == n && Annihilates(a[i := Scaled(a[i], c)], x) ensures Annihilates(o, x) {
      ScaleKernel(a, n, i, c, x);
    }
    forall x: Vec | |x| == n && Annihilates(b[i := Scaled(b[i], c)], x) ensures IsZero(x) {
      ScaleKernel(b, n, i, c, x);
    }
  }

  lemma AddKeeps(a: Mat, b: Mat, o: Mat, n: nat, j: nat, c: byte, i: nat)
    requires IsMat(o, n, n) && Equivalent(a, b, o, n) && i < n && j < n && i != j
    ensures Equivalent(a[j := PlusScaled(a[j], c, a[i])], b[j := PlusScaled(b[j], c, b[i])], o, n)
  {
    hide Tracks, Annihilates, PlusScaled;
    TracksPlusScaled(a[j], b[j], o, n, c, a[i], b[i]);
    forall x: Vec | |x| == n && Annihilates(a[j := PlusScaled(a[j], c, a[i])], x) ensures Annihilates(o, x) {
      AddKernel(a, n, j, c, i, x);
    }
    forall x: Vec | |x| == n && Annihilates(b[j := PlusScaled(b[j], c, b[i])], x) ensures IsZero(x) {
      AddKernel(b, n, j, c, i, x);
    }
  }

  lemma SwapColumns(a: Mat, n: nat, i: nat, j: nat)
    requires IsMat(a, n, n) && i < j < n && UnitColumns(a, n, i)
    ensures UnitColumns(Swapped(a, i, j), n, i)
  {
    var a' := Swapped(a, i, j);
    forall c | 0 <= c < i ensures UnitColumn(a', n, c) {
      assert UnitColumn(a, n, c);
    }
  }

  lemma ScaleColumns(a: Mat, n: nat, i: nat, c: byte)
    requires IsMat(a, n, n) && i < n && UnitColumns(a, n, i)
    ensures UnitColumns(a[i := Scaled(a[i], c)], n, i)
  {
    hide Mul, Scaled;
    MulZero(c);
    var a' := a[i := Scaled(a[i], c)];
    forall d | 0 <= d < i ensures UnitColumn(a', n, d) {
      assert UnitColumn(a, n, d);
    }
  }

  lemma AddColumns(a: Mat, n: nat, i: nat, j: nat, c: byte)
    requires IsMat(a, n, n) && i < n && j < n && i != j && UnitColumns(a, n, i)
    ensures UnitColumns(a[j := PlusScaled(a[j], c, a[i])], n, i)
  {
    hide Mul, Add, PlusScaled;
    MulZero(c);
    var a' := a[j := PlusScaled(a[j], c, a[i])];
    forall d | 0 <= d < i ensures UnitColumn(a', n, d) {
      assert UnitColumn(a, n, d);
      AddZero(a[j][d]);
    }
  }

  // ----- the two ends of the elimination

  lemma InvertibleKernel(b: Mat, o: Mat, n: nat)
    requires IsMat(o, n, n) && IsMat(b, n, n) && LeftInverse(b, o, n)
    ensures TrivialKernel(o, n)
  {
    hide Dot, Apply;
    forall x: Vec | |x| == n && Annihilates(o, x) ensures IsZero(x) {
      assert Undoes(b, o, n, x);
      forall i | 0 <= i < n ensures x[i] == 0 {
        DotZero(b[i], Apply(o, x), n);
        assert Apply(b, Apply(o, x))[i] == x[i];
      }
    }
  }

  lemma TracksAt(a: Vec, b: Vec, o: Mat, n: nat, x: Vec)
    requires IsMat(o, n, n) && |a| == |b| == |x| == n && Tracks(a, b, o, n)
    ensures Dot(a, x, n) == Dot(b, Apply(o, x), n)
  {
  }

  lemma FinishedInverse(a: Mat, b: Mat, o: Mat, n: nat)
    requires IsMat(o, n, n) && Equivalent(a, b, o, n) && UnitColumns(a, n, n)
    ensures IsIdentity(a, n) && LeftInverse(b, o, n) && TrivialKernel(o, n)
  {
    hide Dot, Apply, Tracks, KernelWithin, Annihilates, TrivialKernel;
    assert IsIdentity(a, n) by {
      forall i, j | 0 <= i < n && 0 <= j < n ensures a[i][j] == if i == j then 1 else 0 {
        assert UnitColumn(a, n, j);
      }
    }
    forall x: Vec | |x| == n ensures Undoes(b, o, n, x) {
      IdentityApply(a, n, x);
      forall i | 0 <= i < n ensures Apply(b, Apply(o, x))[i] == Apply(a, x)[i] {
        TracksAt(a[i], b[i], o, n, x);
      }
    }
    InvertibleKernel(b, o, n);
  }

  lemma SameImage(b: Mat, n: nat, u: Vec, y: Vec)
    requires IsMat(b, n, n) && TrivialKernel(b, n) && |u| == |y| == n
    requires Apply(b, u) == Apply(b, y)
    ensures u == y
  {
    hide Dot, Add, Mul, Apply, PlusScaled;
    var d := PlusScaled(u, 1, y);
    forall i | 0 <= i < n ensures Dot(b[i], d, n) == 0 {
      DotComm(b[i], d, n);
      DotComm(b[i], u, n);
      DotComm(b[i], y, n);
      DotPlusScaled(u, 1, y, b[i]);
      MulOne(Dot(y, b[i], n));
      assert Dot(b[i], u, n) == Apply(b, u)[i] == Apply(b, y)[i] == Dot(b[i], y, n);
      AddZero(Dot(u, b[i], n));
    }
    assert Annihilates(b, d);
    forall i | 0 <= i < n ensures u[i] == y[i] {
      assert d[i] == 0;
      MulOne(y[i]);
      AddCancel(u[i], y[i]);
    }
  }

  /** The output matrix never loses a dimension, so a left inverse found this way is a right inverse too. */
  lemma RightInverse(b: Mat, o: Mat, n: nat)
    requires IsMat(o, n, n) && IsMat(b, n, n) && LeftInverse(b, o, n) && TrivialKernel(b, n)
    ensures LeftInverse(o, b, n)
  {
    hide Dot, Apply, TrivialKernel;
    forall y: Vec | |y| == n ensures Undoes(o, b, n, y) {
      assert Undoes(b, o, n, Apply(b, y));
      SameImage(b, n, Apply(o, Apply(b, y)), y);
    }
  }

  /** With unit columns before i and nothing to pivot on in column i, the entries above the missing
      pivot spell out a kernel vector. */
  lemma MissingPivot(a: Mat, b: Mat, o: Mat, n: nat, i: nat) returns (v: Vec)
    requires IsMat(o, n, n) && Equivalent(a, b, o, n) && i < n && UnitColumns(a, n, i)
    requires forall r :: i <= r < n ==> a[r][i] == 0
    ensures |v| == n && !IsZero(v) && Annihilates(o, v)
  {
    hide Dot, Add, Mul, Tracks;
    v := seq(n, c requires 0 <= c < n => if c < i then a[c][i] else if c == i then 1 else 0);
    assert v[i] == 1;
    forall r | 0 <= r < n ensures Dot(a[r], v, n) == 0 {
      forall c | 0 <= c < i ensures a[r][c] == if r == c then 1 else 0 {
        assert UnitColumn(a, n, c);
      }
      if r < i {
        var e := Unit(n, r);
        assert forall c :: 0 <= c < n && c != i ==> a[r][c] == e[c] || v[c] == 0;
        var w := PlusScaled(e, a[r][i], Unit(n, i));
        forall c | 0 <= c < n ensures Mul(a[r][c], v[c]) == Mul(w[c], v[c]) {
          MulZero(a[r][c]); MulZero(w[c]); MulZero(a[r][i]); MulOne(a[r][i]);
          AddZero(e[c]); AddZero(a[r][i]);
        }
        DotSame(a[r], w, v, v, n);
        DotPlusScaled(e, a[r][i], Unit(n, i), v);
        DotUnit(n, r, v);
        DotUnit(n, i, v);
        MulOne(a[r][i]);
        AddZero(a[r][i]);
      } else {
        DotZero(a[r], v, n);
      }
    }
    assert Annihilates(a, v);
  }

  /** Brings a nonzero entry to the pivot position and scales its row to 1 there, if the column has one. */
  method MakePivot(inMat: array2<byte>, outMat: array2<byte>, ghost o: Mat, n: nat, i: nat) returns (found: bool)
    requires inMat != outMat && i < n
    requires inMat.Length0 == inMat.Length1 == outMat.Length0 == outMat.Length1 == n
    requires IsMat(o, n, n) && Equivalent(Rows(inMat), Rows(outMat), o, n) && UnitColumns(Rows(inMat), n, i)
    modifies inMat, outMat
    ensures found ==> Equivalent(Rows(inMat), Rows(outMat), o, n) && UnitColumns(Rows(inMat), n, i)
    ensures found ==> inMat[i, i] == 1
    ensures !found ==> exists v: Vec :: |v| == n && !IsZero(v) && Annihilates(o, v)
  {
    hide Equivalent, UnitColumn, Add, Mul, Annihilates, GfInv, PlusScaled, Scaled;
    if inMat[i, i] == 0 {
      var j := i + 1;
      while j < n && inMat[j, i] == 0
        invariant i < j <= n
        invariant forall r :: i <= r < j ==> inMat[r, i] == 0
      {
        j := j + 1;
      }
      if j == n {
        ghost var v := MissingPivot(Rows(inMat), Rows(outMat), o, n, i);
        return false;
      }
      SwapKeeps(Rows(inMat), Rows(outMat), o, n, i, j);
      SwapColumns(Rows(inMat), n, i, j);
      ghost var a := Rows(inMat);
      SwapRows(inMat, i, j);
      SwapRows(outMat, i, j);
      assert Rows(inMat)[i][i] == a[j][i];
    }
    var temp := GfInv(inMat[i, i]);
    InvNonzero(inMat[i, i]);
    ScaleKeeps(Rows(inMat), Rows(outMat), o, n, i, temp);
    ScaleColumns(Rows(inMat), n, i, temp);
    ScaleRow(inMat, i, temp, 0);
    ScaleRow(outMat, i, temp, 0);
    assert Rows(inMat)[i][i] == 1;
    found := true;
  }

  lemma ClearedColumn(a: Mat, n: nat, i: nat)
    requires IsMat(a, n, n) && i < n && a[i][i] == 1 && forall r :: 0 <= r < n && r != i ==> a[r][i] == 0
    ensures UnitColumn(a, n, i)
  {
  }

  /** Clears column i in every row but the pivot row. */
  method ClearColumn(inMat: array2<byte>, outMat: array2<byte>, ghost o: Mat, n: nat, i: nat)
    requires inMat != outMat && i < n
    requires inMat.Length0 == inMat.Length1 == outMat.Length0 == outMat.Length1 == n
    requires IsMat(o, n, n) && Equivalent(Rows(inMat), Rows(outMat), o, n)
    requires UnitColumns(Rows(inMat), n, i) && inMat[i, i] == 1
    modifies inMat, outMat
    ensures Equivalent(Rows(inMat), Rows(outMat), o, n)
    ensures UnitColumns(Rows(inMat), n, i + 1)
  {
    hide Equivalent, UnitColumn, Add, Mul, PlusScaled;
    for j := 0 to n
      invariant Equivalent(Rows(inMat), Rows(outMat), o, n)
      invariant UnitColumns(Rows(inMat), n, i)
      invariant inMat[i, i] == 1 && forall r :: 0 <= r < j && r != i ==> inMat[r, i] == 0
    {
      if j == i {
        continue;
      }
      label Before:
      var temp := inMat[j, i];
      AddKeeps(Rows(inMat), Rows(outMat), o, n, j, temp, i);
      AddColumns(Rows(inMat), n, i, j, temp);
      ghost var a := Rows(inMat);
      AddScaledRow(outMat, j, temp, i, 0);
      AddScaledRow(inMat, j, temp, i, 0);
      assert a[i][i] == 1 && a[j][i] == temp && Rows(inMat)[j][i] == 0 by {
        MulOne(temp);
        AddZero(temp);
      }
      assert forall r :: 0 <= r < n ==> Rows(inMat)[r][i] == inMat[r, i];
      assert forall r :: 0 <= r < n && r != j ==> Rows(inMat)[r] == a[r];
      assert forall r :: 0 <= r < n ==> a[r][i] == old@Before(inMat[r, i]);
    }
    ClearedColumn(Rows(inMat), n, i);
  }

  lemma NotTrivial(o: Mat, n: nat, v: Vec)
    requires IsMat(o, n, n) && |v| == n && !IsZero(v) && Annihilates(o, v)
    ensures !TrivialKernel(o, n)
  {
  }

  lemma OutputKernel(a: Mat, b: Mat, o: Mat, n: nat)
    requires IsMat(o, n, n) && Equivalent(a, b, o, n)
    ensures IsMat(b, n, n) && TrivialKernel(b, n)
  {
    hide TrivialKernel, Tracks, KernelWithin;
  }

  /** res == 0 says that the original matrix was invertible and that outMat is its inverse, from both sides;
      res == -1 says that it was singular. */
  method GfInvertMatrix(inMat: array2<byte>, outMat: array2<byte>, n: nat) returns (res: int)
    requires inMat != outMat
    requires inMat.Length0 == inMat.Length1 == outMat.Length0 == outMat.Length1 == n
    modifies inMat, outMat
    ensures res == 0 || res == -1
    ensures res == 0 ==> IsIdentity(Rows(inMat), n)
    ensures res == 0 ==> LeftInverse(Rows(outMat), old(Rows(inMat)), n) && LeftInverse(old(Rows(inMat)), Rows(outMat), n)
    ensures res == -1 ==> exists v: Vec :: |v| == n && !IsZero(v) && Annihilates(old(Rows(inMat)), v)
    ensures res == 0 <==> TrivialKernel(old(Rows(inMat)), n)
  {
    hide Equivalent, UnitColumn, TrivialKernel, LeftInverse, Annihilates, IsZero;
    ghost var o := Rows(inMat);
    IdentityMatrix(outMat, n);
    StartEquivalent(o, Rows(outMat), n);
    for i := 0 to n
      invariant Equivalent(Rows(inMat), Rows(outMat), o, n)
      invariant UnitColumns(Rows(inMat), n, i)
    {
      var found := MakePivot(inMat, outMat, o, n, i);
      if !found {
        ghost var v: Vec :| |v| == n && !IsZero(v) && Annihilates(o, v);
        NotTrivial(o, n, v);
        return -1;
      }
      ClearColumn(inMat, outMat, o, n, i);
    }
    FinishedInverse(Rows(inMat), Rows(outMat), o, n);
    OutputKernel(Rows(inMat), Rows(outMat), o, n);
    RightInverse(Rows(outMat), o, n);
    res := 0;
  }

  method IdentityMatrix(m: array2<byte>, n: nat)
    requires m.Length0 == m.Length1 == n
    modifies m
    ensures IsIdentity(Rows(m), n)
  {
    for i := 0 to n
      invariant forall r, c :: 0 <= r < i && 0 <= c < n ==> m[r, c] == 0
    {
      for j := 0 to n
        invariant forall r, c :: 0 <= r < i && 0 <= c < n ==> m[r, c] == 0
        invariant forall c :: 0 <= c < j ==> m[i, c] == 0
      {
        m[i, j] := 0;
      }
    }
    for i := 0 to n
      invariant forall r, c :: 0 <= r < n && 0 <= c < n ==> m[r, c] == if r == c && r < i then 1 else 0
    {
      m[i, i] := 1;
    }
  }
}
