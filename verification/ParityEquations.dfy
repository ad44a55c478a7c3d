/** The four codes in terms of the bytes of a stripe: what each global parity is, and which blocks a local parity adds up to
    zero with. The equations determine all parities. */
module ParityEquations {
  import opened Arithmetic
  import opened Field
  import opened Tables
  import opened LinearAlgebra
  import opened GaussJordan
  import opened Cauchy
  import opened Vandermonde
  import opened Generators

  // ----- the equations

  /** The first n data bytes, each times its coefficient in global parity t: a power of 2 to the power of the block number,
      or the inverse of the sum of the two block numbers. */
  function GlobalXor(code: Code, k: nat, t: nat, x: Vec, n: nat): byte
    requires n <= |x|
  {
    if n == 0 then 0
    else
      var coefficient :=
        if code.UniLRC? || code.AzureLRC? then Power2((t + 1) * (n - 1)) else GfInv(Add(Byte(k + t), Byte(n - 1)));
      Add(GlobalXor(code, k, t, x, n - 1), Mul(coefficient, x[n - 1]))
  }

  /** The data bytes of blocks lo to hi - 1, each times its local factor. */
  function GroupXor(code: Code, k: nat, r: nat, x: Vec, lo: nat, hi: nat): byte
    requires hi <= |x|
    decreases hi
  {
    if hi <= lo then 0
    else
      var factor := if code.UniLRC? || code.AzureLRC? then 1 else GfInv(Add(Byte(hi - 1), Byte(k + r)));
      Add(GroupXor(code, k, r, x, lo, hi - 1), Mul(factor, x[hi - 1]))
  }

  /** The bytes lo to hi - 1. */
  function RunXor(y: Vec, lo: nat, hi: nat): byte
    requires hi <= |y|
    decreases hi
  {
    if hi <= lo then 0 else Add(RunXor(y, lo, hi - 1), y[hi - 1])
  }

  function Cut(n: nat, k: nat): nat { if n < k then n else k }

  /** The global parities that local parity l includes: r / z each in UniLRC, none in AzureLRC, all in OptimalLRC, and all in
      the last local group of UniformLRC. */
  function FirstGlobal(code: Code, r: nat, z: nat, l: nat): nat
    requires z > 0
  {
    if code.UniLRC? then l * r / z else 0
  }

  function EndGlobal(code: Code, r: nat, z: nat, l: nat): nat
    requires z > 0
  {
    if code.UniLRC? then (l + 1) * r / z else if code.OptimalLRC? || (code.UniformLRC? && l == z - 1) then r else 0
  }

  /** Local parity l, the data blocks of its group with their factors, and its global parities add up to zero. The groups are
      runs of k / z data blocks, for UniformLRC of (k + r) / z data blocks and global parities. */
  ghost predicate LocalZero(code: Code, k: nat, r: nat, z: nat, x: Vec, y: Vec, l: nat)
    requires |x| == k && |y| == r + z && l < z
  {
    var data := RunOf(l, if code.UniformLRC? then (k + r) / z else k / z);
    SumsToZero(code, k, r, x, y, r + l, Cut(data.0, k), Cut(data.1, k), FirstGlobal(code, r, z, l), EndGlobal(code, r, z, l))
  }

  /** Where run l of runs of `size` begins and ends. */
  function RunOf(l: nat, size: nat): (nat, nat) { (l * size, l * size + size) }

  ghost predicate SumsToZero(code: Code, k: nat, r: nat, x: Vec, y: Vec, at: nat, lo: nat, hi: nat, first: nat, end: nat)
    requires at < |y|
  {
    hi <= |x| && end <= r <= |y| && Add(Add(y[at], GroupXor(code, k, r, x, lo, hi)), RunXor(y, first, end)) == 0
  }

  /** x are the data bytes of a stripe at one position and y the parities, global ones first. */
  ghost predicate Equations(code: Code, k: nat, r: nat, z: nat, x: Vec, y: Vec) {
    && |x| == k && |y| == r + z
    && (forall t: nat :: t < r ==> y[t] == GlobalXor(code, k, t, x, k))
    && forall l: nat :: l < z ==> LocalZero(code, k, r, z, x, y, l)
  }

  // ----- entries

  lemma {:induction false} GlobalSumIs(code: Code, k: nat, t: nat, x: Vec, n: nat)
    requires n <= |x| == k
    ensures Dot(GlobalRow(code, k, k + t), x, n) == GlobalXor(code, k, t, x, n)
    decreases n
  {
    hide Add, Mul, Power2, Pow, GfInv, Byte;
    if n > 0 {
      GlobalSumIs(code, k, t, x, n - 1);
      PowerOfPower(t + 1, n - 1);
    }
  }

  /** The data part of a local parity. */
  lemma {:induction false} GroupSumIs(code: Code, k: nat, r: nat, z: nat, l: nat, x: Vec, size: nat, n: nat)
    requires n <= |x| == k && z > 0 && size > 0 && size == GroupSize(code, k, r, z)
    ensures Dot(LocalPart(code, k, r, z, l), x, n) == GroupXor(code, k, r, x, Cut(l * size, n), Cut(l * size + size, n))
    decreases n
  {
    hide Add, Mul, GfInv, Byte, GroupSize;
    if n > 0 {
      GroupSumIs(code, k, r, z, l, x, size, n - 1);
      MulZero(x[n - 1]);
      AddZero(Dot(LocalPart(code, k, r, z, l), x, n - 1));
      InGroup(n - 1, size, l);
      assert (l + 1) * size == l * size + size;
    }
  }

  lemma InGroup(j: nat, size: nat, l: nat)
    requires size > 0
    ensures j / size == l <==> l * size <= j < (l + 1) * size
  {
    DivBelow(j, size, l);
    DivBelow(j, size, l + 1);
  }

  /** The global parities that are folded into a row. */
  lemma {:induction false} FoldSum(code: Code, k: nat, u: Vec, x: Vec, y: Vec, first: nat, n: nat)
    requires |u| == |x| == k && first + n <= |y|
    requires forall t :: 0 <= t < first + n ==> y[t] == Dot(GlobalRow(code, k, k + t), x, k)
    ensures Dot(FoldRows(code, k, u, first, n), x, k) == Add(Dot(u, x, k), RunXor(y, first, first + n))
    decreases n
  {
    hide Add, Mul, Dot, GlobalRow;
    if n == 0 {
      AddZero(Dot(u, x, k));
    } else {
      FoldSum(code, k, u, x, y, first, n - 1);
      var row := GlobalRow(code, k, k + first + n - 1);
      DotPlusScaled(FoldRows(code, k, u, first, n - 1), 1, row, x);
      MulOne(Dot(row, x, k));
      AddAssoc(Dot(u, x, k), RunXor(y, first, first + n - 1), y[first + n - 1]);
    }
  }

  lemma FoldedRange(code: Code, k: nat, r: nat, z: nat, l: nat)
    requires Shape(code, k, r, z) && l < z
    ensures var f := Folded(code, r, z, l);
      f.0 == FirstGlobal(code, r, z, l) && f.0 + f.1 == EndGlobal(code, r, z, l) <= r
  {
    FoldedInRange(code, k, r, z, l);
    if code.UniLRC? {
      DivExact(l, r, z);
      DivExact(l + 1, r, z);
      assert (l + 1) * (r / z) == l * (r / z) + r / z;
    }
  }

  lemma LocalEquation(code: Code, k: nat, r: nat, z: nat, x: Vec, y: Vec, l: nat)
    requires Shape(code, k, r, z) && |x| == k && |y| == r + z && l < z
    requires forall i: nat :: i < r + z ==> y[i] == Dot(GeneratorRow(code, k, r, z, k + i), x, k)
    ensures LocalZero(code, k, r, z, x, y, l)
  {
    hide Add, Mul, Dot, GlobalRow, FoldRows, LocalPart, GroupXor, RunXor, Folded, FirstGlobal, EndGlobal;
    var u, f := LocalPart(code, k, r, z, l), Folded(code, r, z, l);
    FoldedRange(code, k, r, z, l);
    var size := if code.UniformLRC? then (k + r) / z else k / z;
    forall t | 0 <= t < f.0 + f.1 ensures y[t] == Dot(GlobalRow(code, k, k + t), x, k) {
    }
    FoldSum(code, k, u, x, y, f.0, f.1);
    GroupSumIs(code, k, r, z, l, x, size, k);
    var a, b := Dot(u, x, k), RunXor(y, f.0, f.0 + f.1);
    assert y[r + l] == Add(a, b);
    AddComm(a, b);
    AddCancel(b, a);
    AddZero(b);
  }

  /** What the generator makes of the data meets the equations. */
  lemma GeneratorMeets(code: Code, k: nat, r: nat, z: nat, x: Vec, y: Vec)
    requires Shape(code, k, r, z) && |x| == k && |y| == r + z
    requires forall i: nat :: i < r + z ==> y[i] == Dot(Generator(code, k, r, z)[k + i], x, k)
    ensures Equations(code, k, r, z, x, y)
  {
    hide Add, Mul, Dot, GlobalRow, LocalRow, LocalZero, GlobalXor;
    forall t: nat | t < r ensures y[t] == GlobalXor(code, k, t, x, k) {
      GlobalSumIs(code, k, t, x, k);
    }
    forall l: nat | l < z ensures LocalZero(code, k, r, z, x, y, l) {
      LocalEquation(code, k, r, z, x, y, l);
    }
  }

  lemma {:induction false} RunSame(y: Vec, w: Vec, lo: nat, hi: nat)
    requires hi <= |y| && hi <= |w| && forall t :: 0 <= t < hi ==> y[t] == w[t]
    ensures RunXor(y, lo, hi) == RunXor(w, lo, hi)
    decreases hi
  {
    if hi > lo {
      RunSame(y, w, lo, hi - 1);
    }
  }

  /** The equations leave no choice. */
  lemma EquationsUnique(code: Code, k: nat, r: nat, z: nat, x: Vec, y: Vec, w: Vec)
    requires Equations(code, k, r, z, x, y) && Equations(code, k, r, z, x, w)
    ensures y == w
  {
    hide GlobalXor, LocalZero;
    assert forall t: nat :: t < r ==> y[t] == w[t];
    forall i | 0 <= i < r + z ensures y[i] == w[i] {
      if i >= r {
        assert LocalZero(code, k, r, z, x, y, i - r) && LocalZero(code, k, r, z, x, w, i - r);
        LocalUnique(code, k, r, z, x, y, w, i - r);
      }
    }
  }

  lemma LocalUnique(code: Code, k: nat, r: nat, z: nat, x: Vec, y: Vec, w: Vec, l: nat)
    requires |x| == k && |y| == |w| == r + z && l < z && forall t: nat :: t < r ==> y[t] == w[t]
    requires LocalZero(code, k, r, z, x, y, l) && LocalZero(code, k, r, z, x, w, l)
    ensures y[r + l] == w[r + l]
  {
    hide Add, GroupXor, RunXor, FirstGlobal, EndGlobal;
    var size := if code.UniformLRC? then (k + r) / z else k / z;
    var data, first, end := GroupXor(code, k, r, x, Cut(l * size, k), Cut(l * size + size, k)), FirstGlobal(code, r, z, l),
      EndGlobal(code, r, z, l);
    RunSame(y, w, first, end);
    Determined(y[r + l], w[r + l], data, RunXor(y, first, end));
  }

  lemma Determined(a: byte, b: byte, data: byte, run: byte)
    requires Add(Add(a, data), run) == 0 && Add(Add(b, data), run) == 0
    ensures a == b
  {
    hide Add;
    AddCancel(Add(a, data), run);
    AddCancel(Add(b, data), run);
    AddCancel(a, data);
    AddCancel(b, data);
  }

  // ----- the matrix

  /** What the parity rows of a matrix make of any data meets the equations. */
  ghost predicate Encodes(m: Mat, code: Code, k: nat, r: nat, z: nat) {
    && IsMat(m, k + r + z, k)
    && forall x: Vec :: |x| == k ==> Equations(code, k, r, z, x, Apply(m[k..], x))
  }

  lemma GeneratorEncodes(code: Code, k: nat, r: nat, z: nat)
    requires Shape(code, k, r, z)
    ensures Encodes(Generator(code, k, r, z), code, k, r, z)
  {
    hide Equations, Dot, GeneratorRow, Shape;
    var m := Generator(code, k, r, z);
    forall x: Vec | |x| == k ensures Equations(code, k, r, z, x, Apply(m[k..], x)) {
      GeneratorMeets(code, k, r, z, x, Apply(m[k..], x));
    }
  }

  /** Builds the whole generator matrix of a code. */
  method GenMatrix(code: Code, k: nat, r: nat, z: nat) returns (a: array2<byte>)
    requires Shape(code, k, r, z)
    ensures fresh(a) && a.Length0 == k + r + z && a.Length1 == k
    ensures Rows(a) == Generator(code, k, r, z)
    ensures GlobalEntries(Rows(a), code, k, r) && Encodes(Rows(a), code, k, r, z)
  {
    hide GlobalEntries, Encodes, GlobalRow, LocalRow, LocalPart, Shape, GroupSize;
    a := new byte[k + r + z, k];
    GlobalRows(a, code, k, k + r);
    SetLocalParts(a, code, k, r, z);
    FoldGlobals(a, code, k, r, z);
    assert forall i :: 0 <= i < k + r + z ==> Row(a, i) == Generator(code, k, r, z)[i];
    EntriesOfGenerator(code, k, r, z);
    GeneratorEncodes(code, k, r, z);
  }
}
