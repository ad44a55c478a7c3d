/** Vectors and matrices over GF(256). A matrix is a sequence of rows; all reasoning goes through
    the dot product and the linear map a matrix stands for. */
module LinearAlgebra {
  import opened Field

  type Vec = seq<byte>
  type Mat = seq<seq<byte>>

  ghost predicate IsMat(m: Mat, rows: nat, cols: nat) {
    |m| == rows && forall i :: 0 <= i < |m| ==> |m[i]| == cols
  }

  /** The sum of u[i] * x[i] over i < n. */
  function Dot(u: Vec, x: Vec, n: nat): byte
    requires n <= |u| && n <= |x|
    decreases n
  {
    if n == 0 then 0 else Add(Dot(u, x, n - 1), Mul(u[n - 1], x[n - 1]))
  }

  ghost predicate IsZero(x: Vec) {
    forall i :: 0 <= i < |x| ==> x[i] == 0
  }

  function Unit(n: nat, i: nat): (e: Vec)
    ensures |e| == n
    ensures forall j :: 0 <= j < n ==> e[j] == if j == i then 1 else 0
  {
    seq(n, j => if j == i then 1 else 0)
  }

  function Scaled(u: Vec, c: byte): (w: Vec)
    ensures |w| == |u|
    ensures forall j :: 0 <= j < |u| ==> w[j] == Mul(u[j], c)
  {
    seq(|u|, j requires 0 <= j < |u| => Mul(u[j], c))
  }

  /** u + c * v */
  function PlusScaled(u: Vec, c: byte, v: Vec): (w: Vec)
    requires |u| == |v|
    ensures |w| == |u|
    ensures forall j :: 0 <= j < |u| ==> w[j] == Add(u[j], Mul(c, v[j]))
  {
    seq(|u|, j requires 0 <= j < |u| => Add(u[j], Mul(c, v[j])))
  }

  function Swapped<T>(m: seq<T>, i: nat, j: nat): (w: seq<T>)
    requires i < |m| && j < |m|
    ensures |w| == |m| && w[i] == m[j] && w[j] == m[i]
    ensures forall r :: 0 <= r < |m| && r != i && r != j ==> w[r] == m[r]
  {
    m[i := m[j]][j := m[i]]
  }

  // ----- the dot product

  lemma {:induction false} DotSame(u: Vec, v: Vec, x: Vec, y: Vec, n: nat)
    requires n <= |u| && n <= |v| && n <= |x| && n <= |y|
    requires forall i :: 0 <= i < n ==> Mul(u[i], x[i]) == Mul(v[i], y[i])
    ensures Dot(u, x, n) == Dot(v, y, n)
    decreases n
  {
    hide Add, Mul;
    if n == 0 {
    } else {
      DotSame(u, v, x, y, n - 1);
    }
  }

  lemma {:induction false} DotZero(u: Vec, x: Vec, n: nat)
    requires n <= |u| && n <= |x|
    requires forall i :: 0 <= i < n ==> u[i] == 0 || x[i] == 0
    ensures Dot(u, x, n) == 0
    decreases n
  {
    hide Add, Mul;
    if n == 0 {
    } else {
      DotZero(u, x, n - 1);
      MulZero(u[n - 1]);
      MulZero(x[n - 1]);
      AddZero(0);
    }
  }

  /** A single term survives when every other one has a zero factor. */
  lemma {:induction false} DotSingle(u: Vec, x: Vec, n: nat, i: nat)
    requires n <= |u| && n <= |x| && i < n
    requires forall j :: 0 <= j < n && j != i ==> u[j] == 0 || x[j] == 0
    ensures Dot(u, x, n) == Mul(u[i], x[i])
    decreases n
  {
    hide Add, Mul;
    if i == n - 1 {
      DotZero(u, x, n - 1);
      AddZero(Mul(u[i], x[i]));
    } else {
      DotSingle(u, x, n - 1, i);
      MulZero(u[n - 1]);
      MulZero(x[n - 1]);
      AddZero(Mul(u[i], x[i]));
    }
  }

  lemma DotUnit(n: nat, i: nat, x: Vec)
    requires i < n == |x|
    ensures Dot(Unit(n, i), x, n) == x[i]
    ensures Dot(x, Unit(n, i), n) == x[i]
  {
    hide Add, Mul, Dot, Unit;
    DotSingle(Unit(n, i), x, n, i);
    DotSingle(x, Unit(n, i), n, i);
    MulOne(x[i]);
  }

  lemma {:induction false} DotComm(u: Vec, x: Vec, n: nat)
    requires n <= |u| && n <= |x|
    ensures Dot(u, x, n) == Dot(x, u, n)
    decreases n
  {
    hide Add, Mul;
    if n == 0 {
    } else {
      DotComm(u, x, n - 1);
      MulComm(u[n - 1], x[n - 1]);
    }
  }

  /** Linearity in the first argument; w = u + c v up to n. */
  lemma {:induction false} DotLinear(w: Vec, u: Vec, c: byte, v: Vec, x: Vec, n: nat)
    requires n <= |w| && n <= |u| && n <= |v| && n <= |x|
    requires forall j :: 0 <= j < n ==> w[j] == Add(u[j], Mul(c, v[j]))
    ensures Dot(w, x, n) == Add(Dot(u, x, n), Mul(c, Dot(v, x, n)))
    decreases n
  {
    hide Add, Mul;
    if n == 0 {
      MulZero(c);
      AddZero(0);
    } else {
      DotLinear(w, u, c, v, x, n - 1);
      var j := n - 1;
      MulAdd(u[j], Mul(c, v[j]), x[j]);
      MulAssoc(c, v[j], x[j]);
      MulAdd(Dot(v, x, j), Mul(v[j], x[j]), c);
      AddSwap(Dot(u, x, j), Mul(c, Dot(v, x, j)), Mul(u[j], x[j]), Mul(c, Mul(v[j], x[j])));
    }
  }

  lemma DotPlusScaled(u: Vec, c: byte, v: Vec, x: Vec)
    requires |u| == |v| == |x|
    ensures Dot(PlusScaled(u, c, v), x, |x|) == Add(Dot(u, x, |x|), Mul(c, Dot(v, x, |x|)))
  {
    hide *;
    DotLinear(PlusScaled(u, c, v), u, c, v, x, |x|);
  }

  lemma {:induction false} DotScaled(u: Vec, c: byte, x: Vec, n: nat)
    requires n <= |u| && n <= |x|
    ensures Dot(Scaled(u, c), x, n) == Mul(Dot(u, x, n), c)
    decreases n
  {
    hide Add, Mul, Scaled;
    if n == 0 {
      MulZero(c);
    } else {
      DotScaled(u, c, x, n - 1);
      MulAdd(Dot(u, x, n - 1), Mul(u[n - 1], x[n - 1]), c);
      MulAssoc(u[n - 1], c, x[n - 1]);
      MulComm(c, x[n - 1]);
      MulAssoc(u[n - 1], x[n - 1], c);
    }
  }

  // ----- the linear map of a matrix

  /** m * x */
  function Apply(m: Mat, x: Vec): (y: Vec)
    requires forall i :: 0 <= i < |m| ==> |m[i]| == |x|
    ensures |y| == |m|
    ensures forall i :: 0 <= i < |m| ==> y[i] == Dot(m[i], x, |x|)
  {
    seq(|m|, i requires 0 <= i < |m| => Dot(m[i], x, |x|))
  }

  function Column(m: Mat, cols: nat, c: nat): (u: Vec)
    requires c < cols && forall i :: 0 <= i < |m| ==> |m[i]| == cols
    ensures |u| == |m|
    ensures forall i :: 0 <= i < |m| ==> u[i] == m[i][c]
  {
    seq(|m|, i requires 0 <= i < |m| => m[i][c])
  }

  /** The combination of the first n rows of m with the coefficients v. */
  function Combine(v: Vec, m: Mat, n: nat, cols: nat): (w: Vec)
    requires n <= |v| && n <= |m| && forall i :: 0 <= i < |m| ==> |m[i]| == cols
    ensures |w| == cols
    ensures forall c :: 0 <= c < cols ==> w[c] == Dot(v, Column(m, cols, c), n)
  {
    seq(cols, c requires 0 <= c < cols => Dot(v, Column(m, cols, c), n))
  }

  /** Combining rows commutes with applying the map: (v m) . x == v . (m x). */
  lemma {:induction false} CombineApply(v: Vec, m: Mat, n: nat, x: Vec)
    requires n <= |v| && n <= |m| && forall i :: 0 <= i < |m| ==> |m[i]| == |x|
    ensures Dot(Combine(v, m, n, |x|), x, |x|) == Dot(v, Apply(m, x), n)
    decreases n
  {
    hide Add, Mul, Apply, Combine, Column;
    var cols := |x|;
    if n == 0 {
      DotZero(Combine(v, m, 0, cols), x, cols);
    } else {
      CombineApply(v, m, n - 1, x);
      var w := Combine(v, m, n - 1, cols);
      forall c | 0 <= c < cols
        ensures Combine(v, m, n, cols)[c] == Add(w[c], Mul(v[n - 1], m[n - 1][c]))
      {
        assert Column(m, cols, c)[n - 1] == m[n - 1][c];
      }
      DotLinear(Combine(v, m, n, cols), w, v[n - 1], m[n - 1], x, cols);
    }
  }

  /** x is in the kernel of m. */
  ghost predicate Annihilates(m: Mat, x: Vec)
    requires forall i :: 0 <= i < |m| ==> |m[i]| == |x|
  {
    forall i :: 0 <= i < |m| ==> Dot(m[i], x, |x|) == 0
  }

  /** The columns of m are independent: only the zero vector is in its kernel. */
  ghost predicate TrivialKernel(m: Mat, cols: nat)
    requires forall i :: 0 <= i < |m| ==> |m[i]| == cols
  {
    forall x: Vec :: |x| == cols && Annihilates(m, x) ==> IsZero(x)
  }

  ghost predicate IsIdentity(m: Mat, n: nat) {
    IsMat(m, n, n) && forall i, j :: 0 <= i < n && 0 <= j < n ==> m[i][j] == if i == j then 1 else 0
  }

  lemma IdentityApply(m: Mat, n: nat, x: Vec)
    requires IsIdentity(m, n) && |x| == n
    ensures Apply(m, x) == x
  {
    hide Dot;
    forall i | 0 <= i < n ensures Apply(m, x)[i] == x[i] {
      assert m[i] == Unit(n, i);
      DotUnit(n, i, x);
    }
  }

  /** Applying b after a gives x back. */
  ghost predicate Undoes(b: Mat, a: Mat, n: nat, x: Vec)
    requires IsMat(a, n, n) && IsMat(b, n, n) && |x| == n
  {
    Apply(b, Apply(a, x)) == x
  }

  ghost predicate LeftInverse(b: Mat, a: Mat, n: nat)
    requires IsMat(a, n, n) && IsMat(b, n, n)
  {
    forall x: Vec :: |x| == n ==> Undoes(b, a, n, x)
  }
}
