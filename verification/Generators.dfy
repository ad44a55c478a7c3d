/** The generator matrices of the four locally repairable codes, built in place as the encoder does,
    and the matrices they are meant to be. Rows 0..k-1 are data, the next r rows global
    parities, the last z rows local parities. */
module Generators {
  import opened Arithmetic
  import opened Field
  import opened Tables
  import opened LinearAlgebra
  import opened GaussJordan
  import opened Cauchy
  import opened Vandermonde

  datatype Code = UniLRC | AzureLRC | OptimalLRC | UniformLRC

  // ----- the intended rows

  /** Row i of the first k + r rows: the unit rows, then powers of 2^(i-k+1) or Cauchy rows. */
  function GlobalRow(code: Code, k: nat, i: nat): (u: Vec)
    ensures |u| == k
  {
    if i < k then Unit(k, i)
    else if code.UniLRC? || code.AzureLRC? then PowerRow(k, Power2(i - k + 1))
    else CauchyRow(k, i)
  }

  /** The coefficient a data block carries in its local parity. */
  function LocalFactor(code: Code, k: nat, r: nat, j: nat): byte {
    if code.UniLRC? || code.AzureLRC? then 1 else GfInv(Add(Byte(j), Byte(k + r)))
  }

  /** The number of blocks a local group is cut from: data blocks, or data and global parities. */
  function GroupSize(code: Code, k: nat, r: nat, z: nat): nat
    requires z > 0
  {
    if code.UniformLRC? then (k + r) / z else k / z
  }

  /** The local parity that covers data block j. */
  function GroupOf(code: Code, k: nat, r: nat, z: nat, j: nat): nat
    requires z > 0 && GroupSize(code, k, r, z) > 0
  {
    j / GroupSize(code, k, r, z)
  }

  /** The data part of local parity l. */
  function LocalPart(code: Code, k: nat, r: nat, z: nat, l: nat): (u: Vec)
    requires z > 0 && GroupSize(code, k, r, z) > 0
    ensures |u| == k
    ensures forall j :: 0 <= j < k ==>
      u[j] == if GroupOf(code, k, r, z, j) == l then LocalFactor(code, k, r, j) else 0
  {
    seq(k, j requires 0 <= j < k =>
      if GroupOf(code, k, r, z, j) == l then LocalFactor(code, k, r, j) else 0)
  }

  /** The global parities folded into local parity l: the first one and how many. */
  function Folded(code: Code, r: nat, z: nat, l: nat): (nat, nat)
    requires z > 0
  {
    match code
    case UniLRC => (l * r / z, r / z)
    case AzureLRC => (0, 0)
    case OptimalLRC => (0, r)
    case UniformLRC => (0, if l == z - 1 then r else 0)
  }

  /** u plus n global parity rows from number first on. */
  function FoldRows(code: Code, k: nat, u: Vec, first: nat, n: nat): (w: Vec)
    requires |u| == k
    ensures |w| == k
    decreases n
  {
    if n == 0 then u else PlusScaled(FoldRows(code, k, u, first, n - 1), 1, GlobalRow(code, k, k + first + n - 1))
  }

  function LocalRow(code: Code, k: nat, r: nat, z: nat, l: nat): (u: Vec)
    requires z > 0 && GroupSize(code, k, r, z) > 0
    ensures |u| == k
  {
    var f := Folded(code, r, z, l);
    FoldRows(code, k, LocalPart(code, k, r, z, l), f.0, f.1)
  }

  /** The shapes for which the builders stay inside their buffers. */
  predicate Shape(code: Code, k: nat, r: nat, z: nat) {
    && k > 0 && z > 0 && GroupSize(code, k, r, z) > 0
    && (if code.UniformLRC? then (k + r) % z == 0 else k % z == 0)
    && (code.UniLRC? ==> r % z == 0)
  }

  lemma ShapeSizes(code: Code, k: nat, r: nat, z: nat)
    requires Shape(code, k, r, z)
    ensures k > 0 && z > 0
  {
  }

  function GeneratorRow(code: Code, k: nat, r: nat, z: nat, i: nat): (u: Vec)
    requires Shape(code, k, r, z)
    ensures |u| == k
  {
    if i < k + r then GlobalRow(code, k, i) else LocalRow(code, k, r, z, i - k - r)
  }

  function Generator(code: Code, k: nat, r: nat, z: nat): (g: Mat)
    requires Shape(code, k, r, z)
    ensures |g| == k + r + z
    ensures forall i :: 0 <= i < k + r + z ==> |g[i]| == k && g[i] == GeneratorRow(code, k, r, z, i)
  {
    seq(k + r + z, i requires 0 <= i < k + r + z => GeneratorRow(code, k, r, z, i))
  }

  // ----- the builders

  method ClearRows(a: array2<byte>, m: nat)
    requires m <= a.Length0
    modifies a
    ensures forall i, j :: 0 <= i < a.Length0 && 0 <= j < a.Length1 ==>
      a[i, j] == if i < m then 0 else old(a[i, j])
  {
    for i := 0 to m
      invariant forall r, c :: 0 <= r < a.Length0 && 0 <= c < a.Length1 ==>
        a[r, c] == if r < i then 0 else old(a[r, c])
    {
      for j := 0 to a.Length1
        invariant forall r, c :: 0 <= r < a.Length0 && 0 <= c < a.Length1 ==>
          a[r, c] == if r < i || (r == i && c < j) then 0 else old(a[r, c])
      {
        a[i, j] := 0;
      }
    }
  }

  method UnitRows(a: array2<byte>, m: nat, k: nat)
    requires k <= m <= a.Length0 && a.Length1 == k
    modifies a
    ensures forall i, j :: 0 <= i < a.Length0 && 0 <= j < k ==>
      a[i, j] == if i < m then (if i == j then 1 else 0) else old(a[i, j])
  {
    ClearRows(a, m);
    for i := 0 to k
      invariant forall r, c :: 0 <= r < a.Length0 && 0 <= c < k ==>
        a[r, c] == if r < m then (if r == c && r < i then 1 else 0) else old(a[r, c])
    {
      a[i, i] := 1;
    }
  }

  /** The first m rows become the unit rows and then the powers of 2, 4, 8, ... */
  method GfGenRsMatrix1(a: array2<byte>, m: nat, k: nat)
    requires k <= m <= a.Length0 && a.Length1 == k
    modifies a
    ensures forall i :: 0 <= i < m ==> Row(a, i) == GlobalRow(AzureLRC, k, i)
    ensures forall i :: m <= i < a.Length0 ==> Row(a, i) == old(Row(a, i))
  {
    hide Mul, Power2, Pow, GfMul;
    UnitRows(a, m, k);
    FirstPower();
    var gen: byte := 2;
    for i := k to m
      invariant gen == Power2(i - k + 1)
      invariant forall r, c :: 0 <= r < a.Length0 && 0 <= c < k ==>
        a[r, c] == if r < k then (if r == c then 1 else 0)
                   else if r < i then Pow(Power2(r - k + 1), c)
                   else if r < m then 0 else old(a[r, c])
    {
      PowersInto(a, i, gen, k);
      NextPower(i - k + 1);
      gen := GfMul(gen, 2);
    }
    forall i | 0 <= i < m ensures Row(a, i) == GlobalRow(AzureLRC, k, i) {
    }
  }

  lemma FirstPower()
    ensures Power2(1) == 2
  {
    assert Power2(0) == 1;
  }

  lemma NextPower(n: nat)
    requires n > 0
    ensures Mul(Power2(n), 2) == Power2(n + 1)
  {
    hide Mul;
    Power2Sum(n, 1);
  }

  method PowersInto(a: array2<byte>, i: nat, gen: byte, k: nat)
    requires i < a.Length0 && a.Length1 == k
    modifies a
    ensures forall c :: 0 <= c < k ==> a[i, c] == Pow(gen, c)
    ensures forall r, c :: 0 <= r < a.Length0 && 0 <= c < k && r != i ==> a[r, c] == old(a[r, c])
  {
    hide Mul, GfMul;
    var p: byte := 1;
    for j := 0 to k
      invariant p == Pow(gen, j)
      invariant forall c :: 0 <= c < j ==> a[i, c] == Pow(gen, c)
      invariant forall r, c :: 0 <= r < a.Length0 && 0 <= c < k && r != i ==> a[r, c] == old(a[r, c])
    {
      a[i, j] := p;
      p := GfMul(p, gen);
    }
  }

  /** The first m rows become the unit rows and then the Cauchy rows 1 / (i + j). */
  method GfGenCauchyMatrix1(a: array2<byte>, m: nat, k: nat)
    requires k <= m <= a.Length0 && a.Length1 == k
    modifies a
    ensures forall i :: 0 <= i < m ==> Row(a, i) == GlobalRow(OptimalLRC, k, i)
    ensures forall i :: m <= i < a.Length0 ==> Row(a, i) == old(Row(a, i))
  {
    hide Add, GfInv, Byte;
    UnitRows(a, m, k);
    for i := k to m
      invariant forall r, c :: 0 <= r < a.Length0 && 0 <= c < k ==>
        a[r, c] == if r < k then (if r == c then 1 else 0)
                   else if r < i then GfInv(Add(Byte(r), Byte(c)))
                   else if r < m then 0 else old(a[r, c])
    {
      for j := 0 to k
        invariant forall r, c :: 0 <= r < a.Length0 && 0 <= c < k ==>
          a[r, c] == if r < k then (if r == c then 1 else 0)
                     else if r < i || (r == i && c < j) then GfInv(Add(Byte(r), Byte(c)))
                     else if r < m then 0 else old(a[r, c])
      {
        a[i, j] := GfInv(Add(Byte(i), Byte(j)));
      }
    }
    forall i | 0 <= i < m ensures Row(a, i) == GlobalRow(OptimalLRC, k, i) {
    }
  }

  /** Puts each data block's factor into its local parity row. */
  method SetLocalParts(a: array2<byte>, code: Code, k: nat, r: nat, z: nat)
    requires Shape(code, k, r, z) && a.Length0 == k + r + z && a.Length1 == k
    requires forall i, j :: k + r <= i < k + r + z && 0 <= j < k ==> a[i, j] == 0
    modifies a
    ensures forall i :: 0 <= i < k + r ==> Row(a, i) == old(Row(a, i))
    ensures forall l :: 0 <= l < z ==> Row(a, k + r + l) == LocalPart(code, k, r, z, l)
    ensures forall g: nat :: k + r <= g < k + r + z ==> FactorsOf(Row(a, g), code, k, r, z, g - k - r)
  {
    hide LocalFactor, LocalPart, FactorsOf;
    assert z > 0 && GroupSize(code, k, r, z) > 0;
    hide Shape, GroupOf;
    var m := k + r;
    for i := 0 to k
      invariant forall g, j :: 0 <= g < m && 0 <= j < k ==> a[g, j] == old(a[g, j])
      invariant forall g, j :: m <= g < m + z && 0 <= j < k ==>
        a[g, j] == if j < i && GroupOf(code, k, r, z, j) == g - m then LocalFactor(code, k, r, j) else 0
    {
      var row := GroupOf(code, k, r, z, i);
      LocalRowInRange(code, k, r, z, i);
      a[m + row, i] := LocalFactor(code, k, r, i);
    }
    forall l | 0 <= l < z ensures Row(a, m + l) == LocalPart(code, k, r, z, l) {
      assert forall j :: 0 <= j < k ==> a[m + l, j] == LocalPart(code, k, r, z, l)[j];
    }
    forall g: nat | m <= g < m + z ensures FactorsOf(Row(a, g), code, k, r, z, g - m) {
      LocalPartFactors(code, k, r, z, g - m);
      assert Row(a, m + (g - m)) == LocalPart(code, k, r, z, g - m);
    }
  }

  /** The factors of group l: 1, or inverted sums of block numbers; the groups are runs of equal length. */
  ghost predicate FactorsOf(row: Vec, code: Code, k: nat, r: nat, z: nat, l: nat)
    requires z > 0
  {
    var size := if code.UniformLRC? then (k + r) / z else k / z;
    && |row| == k
    && forall j: nat :: j < k ==>
         row[j] == if l * size <= j < (l + 1) * size
                   then if code.UniLRC? || code.AzureLRC? then 1 else GfInv(Add(Byte(j), Byte(k + r)))
                   else 0
  }

  lemma LocalPartFactors(code: Code, k: nat, r: nat, z: nat, l: nat)
    requires Shape(code, k, r, z) && l < z
    ensures FactorsOf(LocalPart(code, k, r, z, l), code, k, r, z, l)
  {
    hide GfInv, Add, Byte;
    var size := GroupSize(code, k, r, z);
    forall j: nat | j < k ensures j / size == l <==> l * size <= j < (l + 1) * size {
      DivBelow(j, size, l);
      DivBelow(j, size, l + 1);
    }
  }

  lemma LocalRowInRange(code: Code, k: nat, r: nat, z: nat, i: nat)
    requires Shape(code, k, r, z) && i < k
    ensures GroupOf(code, k, r, z, i) < z
  {
    var total := if code.UniformLRC? then k + r else k;
    DivExact(1, total, z);
    DivBelow(i, GroupSize(code, k, r, z), z);
  }

  /** Adds n global parity rows, from number first on, into a row. */
  method AddGlobalRows(a: array2<byte>, code: Code, k: nat, target: nat, first: nat, n: nat)
    requires a.Length1 == k && k + first + n <= target < a.Length0
    requires forall i :: k + first <= i < k + first + n ==> Row(a, i) == GlobalRow(code, k, i)
    modifies a
    ensures Row(a, target) == FoldRows(code, k, old(Row(a, target)), first, n)
    ensures forall i :: 0 <= i < a.Length0 && i != target ==> Row(a, i) == old(Row(a, i))
  {
    hide GlobalRow, FoldRows;
    ghost var u := Row(a, target);
    for j := 0 to k
      invariant forall i, c :: 0 <= i < a.Length0 && 0 <= c < k && i != target ==> a[i, c] == old(a[i, c])
      invariant forall c :: 0 <= c < k ==> a[target, c] == if c < j then FoldRows(code, k, u, first, n)[c] else u[c]
    {
      assert forall i :: 0 <= i < a.Length0 && i != target ==> Row(a, i) == old(Row(a, i));
      AddGlobalEntries(a, code, k, target, first, n, j, u);
    }
  }

  method AddGlobalEntries(a: array2<byte>, code: Code, k: nat, target: nat, first: nat, n: nat, j: nat, ghost u: Vec)
    requires a.Length1 == k && k + first + n <= target < a.Length0 && j < k
    requires forall i :: k + first <= i < k + first + n ==> Row(a, i) == GlobalRow(code, k, i)
    requires |u| == k && a[target, j] == u[j]
    modifies a
    ensures a[target, j] == FoldRows(code, k, u, first, n)[j]
    ensures forall i, c :: 0 <= i < a.Length0 && 0 <= c < k && (i != target || c != j) ==> a[i, c] == old(a[i, c])
  {
    hide GlobalRow, Add, Mul;
    for l := 0 to n
      invariant forall i, c :: 0 <= i < a.Length0 && 0 <= c < k && (i != target || c != j) ==> a[i, c] == old(a[i, c])
      invariant a[target, j] == FoldRows(code, k, u, first, l)[j]
    {
      assert a[k + first + l, j] == old(Row(a, k + first + l))[j];
      MulOne(GlobalRow(code, k, k + first + l)[j]);
      a[target, j] := Add(a[target, j], a[k + first + l, j]);
    }
  }

  method GlobalRows(a: array2<byte>, code: Code, k: nat, m: nat)
    requires k <= m <= a.Length0 && a.Length1 == k
    modifies a
    ensures forall i :: 0 <= i < m ==> Row(a, i) == GlobalRow(code, k, i)
    ensures forall i, j :: m <= i < a.Length0 && 0 <= j < k ==> a[i, j] == 0
  {
    ClearRows(a, a.Length0);
    ghost var cleared := Rows(a);
    assert forall i, j :: 0 <= i < a.Length0 && 0 <= j < k ==> cleared[i][j] == 0;
    if code.UniLRC? || code.AzureLRC? {
      GfGenRsMatrix1(a, m, k);
    } else {
      GfGenCauchyMatrix1(a, m, k);
    }
    forall i, j | m <= i < a.Length0 && 0 <= j < k ensures a[i, j] == 0 {
      assert a[i, j] == Row(a, i)[j] == cleared[i][j];
    }
  }

  /** The first k + r rows, entry by entry. */
  ghost predicate GlobalEntries(m: Mat, code: Code, k: nat, r: nat) {
    k + r <= |m| && forall i: nat :: i < k + r ==> EntriesOf(m[i], code, k, i)
  }

  /** Row i of the identity; or powers of 2, 4, 8 and so on; or the inverted sums of the numbers of row and column. */
  ghost predicate EntriesOf(row: Vec, code: Code, k: nat, i: nat) {
    && |row| == k
    && forall j: nat :: j < k ==>
         row[j] == if i < k then (if i == j then 1 else 0)
                   else if code.UniLRC? || code.AzureLRC? then Power2((i - k + 1) * j)
                   else GfInv(Add(Byte(i), Byte(j)))
  }

  lemma EntriesOfGenerator(code: Code, k: nat, r: nat, z: nat)
    requires Shape(code, k, r, z)
    ensures GlobalEntries(Generator(code, k, r, z), code, k, r)
  {
    hide EntriesOf, GlobalRow, Shape;
    forall i: nat | i < k + r ensures EntriesOf(Generator(code, k, r, z)[i], code, k, i) {
      RowEntries(code, k, i);
    }
  }

  lemma RowEntries(code: Code, k: nat, i: nat)
    ensures EntriesOf(GlobalRow(code, k, i), code, k, i)
  {
    hide Add, Power2, GfInv, Byte, GlobalRow;
    forall j: nat | j < k
      ensures GlobalRow(code, k, i)[j] ==
        if i < k then (if i == j then 1 else 0)
        else if code.UniLRC? || code.AzureLRC? then Power2((i - k + 1) * j) else GfInv(Add(Byte(i), Byte(j)))
    {
      GlobalEntry(code, k, i, j);
    }
  }

  lemma GlobalEntry(code: Code, k: nat, i: nat, j: nat)
    requires j < k
    ensures GlobalRow(code, k, i)[j]
         == if i < k then (if i == j then 1 else 0)
            else if code.UniLRC? || code.AzureLRC? then Power2((i - k + 1) * j) else GfInv(Add(Byte(i), Byte(j)))
  {
    hide Add, Power2, Pow, GfInv, Byte;
    if i >= k {
      PowerOfPower(i - k + 1, j);
    }
  }

  method FoldGlobals(a: array2<byte>, code: Code, k: nat, r: nat, z: nat)
    requires Shape(code, k, r, z) && a.Length0 == k + r + z && a.Length1 == k
    requires forall i :: 0 <= i < k + r ==> Row(a, i) == GlobalRow(code, k, i)
    requires forall l :: 0 <= l < z ==> Row(a, k + r + l) == LocalPart(code, k, r, z, l)
    modifies a
    ensures forall i :: 0 <= i < k + r ==> Row(a, i) == GlobalRow(code, k, i)
    ensures forall l :: 0 <= l < z ==> Row(a, k + r + l) == LocalRow(code, k, r, z, l)
  {
    hide GlobalRow, FoldRows, LocalPart, Folded;
    for l := 0 to z
      invariant forall i :: 0 <= i < k + r ==> Row(a, i) == GlobalRow(code, k, i)
      invariant forall t :: 0 <= t < z ==>
        Row(a, k + r + t) == if t < l then LocalRow(code, k, r, z, t) else LocalPart(code, k, r, z, t)
    {
      var f := Folded(code, r, z, l);
      FoldedInRange(code, k, r, z, l);
      AddGlobalRows(a, code, k, k + r + l, f.0, f.1);
    }
  }

  lemma FoldedInRange(code: Code, k: nat, r: nat, z: nat, l: nat)
    requires Shape(code, k, r, z) && l < z
    ensures Folded(code, r, z, l).0 + Folded(code, r, z, l).1 <= r
    ensures code.UniLRC? ==> Folded(code, r, z, l) == (l * (r / z), r / z)
  {
    if code.UniLRC? {
      DivExact(l, r, z);
      MulMono(l + 1, z, r / z);
    }
  }
}
