/** Every local group of UniLRC, AzureLRC and UniformLRC adds up to zero once each data block is weighted with
    its factor, so any one member is determined by the rest. */
module LocalGroups {
  import opened Arithmetic
  import opened Field
  import opened LinearAlgebra
  import opened Generators
  import opened Aggregation
  import opened NodePlacement

  /** The local group of block i. AzureLRC's global parities are in none. */
  function RepairGroup(code: Code, k: nat, r: nat, z: nat, i: nat): nat
    requires z > 0 && GroupSize(code, k, r, z) > 0 && (code.UniLRC? ==> i < k || i >= k + r || r / z > 0)
  {
    if i < k then GroupOf(code, k, r, z, i)
    else if i >= k + r then i - k - r
    else match code
      case UniLRC => (i - k) / (r / z)
      case UniformLRC => i / GroupSize(code, k, r, z)
      case _ => z
  }

  /** z | k and z | r for UniLRC, z | k for AzureLRC, z | k + r and global parities within one group for UniformLRC. */
  predicate LocalShape(code: Code, k: nat, r: nat, z: nat) {
    && Shape(code, k, r, z) && r > 0 && !code.OptimalLRC?
    && (code.UniformLRC? ==> r <= (k + r) / z)
  }

  lemma UniGroupSize(code: Code, k: nat, r: nat, z: nat)
    requires LocalShape(code, k, r, z)
    ensures code.UniLRC? ==> r / z > 0
  {
    if code.UniLRC? {
      DivExact(1, r, z);
    }
  }

  function RepairTable(code: Code, k: nat, r: nat, z: nat): (g: seq<int>)
    requires LocalShape(code, k, r, z)
    ensures |g| == k + r + z
    ensures code.UniLRC? ==> r / z > 0
    ensures forall i :: 0 <= i < k + r + z ==> g[i] == RepairGroup(code, k, r, z, i)
  {
    UniGroupSize(code, k, r, z);
    seq(k + r + z, i requires 0 <= i < k + r + z => RepairGroup(code, k, r, z, i))
  }

  /** The factor of block i in the sum of its local group. */
  function Weight(code: Code, k: nat, r: nat, i: nat): byte {
    if i < k then LocalFactor(code, k, r, i) else 1
  }

  function Weights(code: Code, k: nat, r: nat, n: nat): (w: Vec)
    ensures |w| == n && forall i :: 0 <= i < n ==> w[i] == Weight(code, k, r, i)
  {
    seq(n, i requires 0 <= i < n => Weight(code, k, r, i))
  }

  /** The bytes of all blocks of a stripe at one position. */
  function Codeword(code: Code, k: nat, r: nat, z: nat, x: Vec): (c: Vec)
    requires Shape(code, k, r, z) && |x| == k
    ensures |c| == k + r + z
    ensures forall i :: 0 <= i < k + r + z ==> c[i] == Dot(GeneratorRow(code, k, r, z, i), x, k)
  {
    seq(k + r + z, i requires 0 <= i < k + r + z => Dot(GeneratorRow(code, k, r, z, i), x, k))
  }

  // ----- sums over a growing prefix of a group

  lemma MembersBelow(groups: seq<int>, c: int, n: nat, m: nat)
    requires n <= |groups| && n <= m
    ensures InRange(Members(groups, c, n), m)
  {
    hide Members;
    MembersSound(groups, c, n);
    var s := Members(groups, c, n);
    assert forall i :: 0 <= i < |s| ==> s[i] in s;
  }

  lemma MembersStep(groups: seq<int>, c: int, n: nat, v: Vec)
    requires n < |groups| == |v|
    ensures InRange(Members(groups, c, n), |v|) && InRange(Members(groups, c, n + 1), |v|)
    ensures SumOver(Members(groups, c, n + 1), v)
         == if groups[n] == c then Add(SumOver(Members(groups, c, n), v), v[n]) else SumOver(Members(groups, c, n), v)
  {
    MembersBelow(groups, c, n, |v|);
    MembersBelow(groups, c, n + 1, |v|);
    hide Add;
    var s := Members(groups, c, n);
    assert (s + [n])[..|s|] == s;
  }

  /** While the members are data blocks, the sum is the data part of the local parity. */
  lemma {:induction false} DataSum(g: seq<int>, c: int, v: Vec, u: Vec, x: Vec, n: nat)
    requires n <= |u| == |x| && n <= |g| == |v|
    requires forall i :: 0 <= i < n ==> if g[i] == c then v[i] == Mul(u[i], x[i]) else u[i] == 0
    ensures InRange(Members(g, c, n), |v|)
    ensures SumOver(Members(g, c, n), v) == Dot(u, x, n)
    decreases n
  {
    hide Add, Mul, SumOver, Members;
    MembersBelow(g, c, n, |v|);
    if n == 0 {
      NoMembers(g, c, 0);
      SumOverNothing(v);
    } else {
      DataSum(g, c, v, u, x, n - 1);
      MembersStep(g, c, n - 1, v);
      MulZero(x[n - 1]);
      AddZero(Dot(u, x, n - 1));
    }
  }

  /** While they are global parities, rows are folded in one after the other; m counts them. */
  lemma {:induction false} GlobalSum(g: seq<int>, c: int, v: Vec, code: Code, k: nat, u: Vec, x: Vec,
      first: nat, m: seq<nat>, t: nat)
    requires |u| == |x| == k && |g| == |v| && k + t <= |g| && |m| == t + 1 && m[0] == 0
    requires InRange(Members(g, c, k), |v|) && SumOver(Members(g, c, k), v) == Dot(u, x, k)
    requires forall i :: k <= i < k + t && g[i] != c ==> m[i - k + 1] == m[i - k]
    requires forall i :: k <= i < k + t && g[i] == c ==>
      m[i - k + 1] == m[i - k] + 1 && first + m[i - k] == i - k && v[i] == Dot(GlobalRow(code, k, i), x, k)
    ensures InRange(Members(g, c, k + t), |v|)
    ensures SumOver(Members(g, c, k + t), v) == Dot(FoldRows(code, k, u, first, m[t]), x, k)
    decreases t
  {
    hide Add, Mul, SumOver, Members, Dot, GlobalRow;
    MembersBelow(g, c, k + t, |v|);
    if t == 0 {
    } else {
      GlobalSum(g, c, v, code, k, u, x, first, m[..t], t - 1);
      MembersStep(g, c, k + t - 1, v);
      if g[k + t - 1] == c {
        var row := GlobalRow(code, k, k + t - 1);
        DotPlusScaled(FoldRows(code, k, u, first, m[t - 1]), 1, row, x);
        MulOne(Dot(row, x, k));
      }
    }
  }

  /** The one local parity of the group cancels the sum. */
  lemma {:induction false} LocalSum(g: seq<int>, c: nat, v: Vec, m: nat, l: nat, total: byte)
    requires |g| == |v| && m + l <= |g|
    requires InRange(Members(g, c, m), |v|) && SumOver(Members(g, c, m), v) == total
    requires forall i :: m <= i < m + l ==> g[i] == i - m
    requires c < l ==> v[m + c] == total
    ensures InRange(Members(g, c, m + l), |v|)
    ensures SumOver(Members(g, c, m + l), v) == if l <= c then total else 0
    decreases l
  {
    hide Add, SumOver, Members;
    MembersBelow(g, c, m + l, |v|);
    if l == 0 {
    } else {
      LocalSum(g, c, v, m, l - 1, total);
      MembersStep(g, c, m + l - 1, v);
      AddZero(total);
    }
  }

  /** Every block's byte times its weight. */
  function WeightedWord(code: Code, k: nat, r: nat, z: nat, x: Vec): (v: Vec)
    requires Shape(code, k, r, z) && |x| == k
    ensures |v| == k + r + z
  {
    Products(Weights(code, k, r, k + r + z), Codeword(code, k, r, z, x))
  }

  lemma DataWord(code: Code, k: nat, r: nat, z: nat, x: Vec, i: nat)
    requires Shape(code, k, r, z) && |x| == k && i < k
    ensures WeightedWord(code, k, r, z, x)[i] == Mul(LocalFactor(code, k, r, i), x[i])
  {
    hide Add, Mul, Dot, Unit, LocalFactor;
    DotUnit(k, i, x);
  }

  lemma ParityWord(code: Code, k: nat, r: nat, z: nat, x: Vec, i: nat)
    requires Shape(code, k, r, z) && |x| == k && k <= i < k + r + z
    ensures WeightedWord(code, k, r, z, x)[i] == Dot(GeneratorRow(code, k, r, z, i), x, k)
  {
    hide Add, Mul, Dot, GeneratorRow;
    MulOne(Dot(GeneratorRow(code, k, r, z, i), x, k));
  }

  // ----- the global parities of a group are those folded into its local parity

  /** How many of the first t global parities are folded into local parity c. */
  function FoldedBelow(code: Code, r: nat, z: nat, c: nat, t: nat): nat
    requires z > 0
  {
    var f := Folded(code, r, z, c);
    if t <= f.0 then 0 else if t - f.0 < f.1 then t - f.0 else f.1
  }

  lemma FoldedStep(code: Code, k: nat, r: nat, z: nat, c: nat, t: nat)
    requires LocalShape(code, k, r, z) && c < z && t < r
    ensures var here := RepairTable(code, k, r, z)[k + t] == c;
      var m := FoldedBelow(code, r, z, c, t);
      && FoldedBelow(code, r, z, c, t + 1) == (if here then m + 1 else m)
      && (here ==> Folded(code, r, z, c).0 + m == t)
  {
    match code {
      case UniLRC =>
        UniGroupSize(code, k, r, z);
        DivExact(c, r, z);
        DivBelow(t, r / z, c);
        DivBelow(t, r / z, c + 1);
        assert (c + 1) * (r / z) == c * (r / z) + r / z;
      case AzureLRC =>
      case UniformLRC =>
        var size := (k + r) / z;
        DivExact(1, k + r, z);
        assert (k + r) == z * size && (z - 1) * size + size == z * size;
        DivBelow(k + t, size, z);
        DivBelow(k + t, size, z - 1);
      case OptimalLRC =>
    }
  }

  lemma GroupDataSum(code: Code, k: nat, r: nat, z: nat, x: Vec, c: nat)
    requires LocalShape(code, k, r, z) && |x| == k
    ensures InRange(Members(RepairTable(code, k, r, z), c, k), k + r + z)
    ensures SumOver(Members(RepairTable(code, k, r, z), c, k), WeightedWord(code, k, r, z, x))
         == Dot(LocalPart(code, k, r, z, c), x, k)
  {
    hide Add, Mul, LocalFactor, GroupOf, SumOver, WeightedWord, Members, Dot, LocalPart;
    var g, v, u := RepairTable(code, k, r, z), WeightedWord(code, k, r, z, x), LocalPart(code, k, r, z, c);
    forall i | 0 <= i < k ensures if g[i] == c then v[i] == Mul(u[i], x[i]) else u[i] == 0 {
      DataWord(code, k, r, z, x, i);
    }
    DataSum(g, c, v, u, x, k);
  }

  lemma GroupGlobalSum(code: Code, k: nat, r: nat, z: nat, x: Vec, c: nat)
    requires LocalShape(code, k, r, z) && Shape(code, k, r, z) && z > 0 && GroupSize(code, k, r, z) > 0
    requires |x| == k && c < z
    ensures InRange(Members(RepairTable(code, k, r, z), c, k + r), k + r + z)
    ensures SumOver(Members(RepairTable(code, k, r, z), c, k + r), WeightedWord(code, k, r, z, x))
         == Dot(LocalRow(code, k, r, z, c), x, k)
  {
    hide *;
    var g, v, u := RepairTable(code, k, r, z), WeightedWord(code, k, r, z, x), LocalPart(code, k, r, z, c);
    var f := Folded(code, r, z, c);
    var m: seq<nat> := FoldedCounts(code, r, z, c);
    GroupDataSum(code, k, r, z, x, c);
    FoldedEnds(code, k, r, z, c);
    forall i | k <= i < k + r
      ensures g[i] != c ==> m[i - k + 1] == m[i - k]
      ensures g[i] == c ==>
        m[i - k + 1] == m[i - k] + 1 && f.0 + m[i - k] == i - k && v[i] == Dot(GlobalRow(code, k, i), x, k)
    {
      FoldedStep(code, k, r, z, c, i - k);
      GlobalWord(code, k, r, z, x, i);
    }
    GlobalSum(g, c, v, code, k, u, x, f.0, m, r);
    LocalRowForm(code, k, r, z, c);
  }

  lemma LocalRowForm(code: Code, k: nat, r: nat, z: nat, c: nat)
    requires z > 0 && GroupSize(code, k, r, z) > 0
    ensures var f := Folded(code, r, z, c);
      LocalRow(code, k, r, z, c) == FoldRows(code, k, LocalPart(code, k, r, z, c), f.0, f.1)
  {
  }

  lemma GlobalWord(code: Code, k: nat, r: nat, z: nat, x: Vec, i: nat)
    requires LocalShape(code, k, r, z) && |x| == k && k <= i < k + r
    ensures WeightedWord(code, k, r, z, x)[i] == Dot(GlobalRow(code, k, i), x, k)
  {
    hide Add, Mul, Dot, WeightedWord, GlobalRow;
    ParityWord(code, k, r, z, x, i);
  }

  lemma LocalWord(code: Code, k: nat, r: nat, z: nat, x: Vec, c: nat)
    requires LocalShape(code, k, r, z) && |x| == k && c < z
    ensures WeightedWord(code, k, r, z, x)[k + r + c] == Dot(LocalRow(code, k, r, z, c), x, k)
    ensures forall i :: k + r <= i < k + r + z ==> RepairTable(code, k, r, z)[i] == i - (k + r)
  {
    hide Add, Mul, Dot, WeightedWord, LocalRow;
    ParityWord(code, k, r, z, x, k + r + c);
  }

  function FoldedCounts(code: Code, r: nat, z: nat, c: nat): (m: seq<nat>)
    requires z > 0
    ensures |m| == r + 1 && forall t :: 0 <= t <= r ==> m[t] == FoldedBelow(code, r, z, c, t)
  {
    seq(r + 1, t requires 0 <= t => FoldedBelow(code, r, z, c, t))
  }

  lemma FoldedEnds(code: Code, k: nat, r: nat, z: nat, c: nat)
    requires LocalShape(code, k, r, z) && c < z
    ensures FoldedBelow(code, r, z, c, 0) == 0
    ensures FoldedBelow(code, r, z, c, r) == Folded(code, r, z, c).1
  {
    FoldedInRange(code, k, r, z, c);
  }

  lemma AllGroupSum(code: Code, k: nat, r: nat, z: nat, x: Vec, c: nat)
    requires LocalShape(code, k, r, z) && Shape(code, k, r, z) && z > 0 && GroupSize(code, k, r, z) > 0
    requires |x| == k && c < z
    ensures InRange(Members(RepairTable(code, k, r, z), c, k + r + z), k + r + z)
    ensures SumOver(Members(RepairTable(code, k, r, z), c, k + r + z), WeightedWord(code, k, r, z, x)) == 0
  {
    hide *;
    var g, v := RepairTable(code, k, r, z), WeightedWord(code, k, r, z, x);
    GroupGlobalSum(code, k, r, z, x, c);
    LocalWord(code, k, r, z, x, c);
    LocalSum(g, c, v, k + r, z, Dot(LocalRow(code, k, r, z, c), x, k));
  }

  /** The weighted blocks of a local group, parities included, add up to zero. */
  lemma LocalGroupZero(code: Code, k: nat, r: nat, z: nat, x: Vec, c: nat)
    requires LocalShape(code, k, r, z) && |x| == k && c < z
    ensures InRange(Members(RepairTable(code, k, r, z), c, k + r + z), k + r + z)
    ensures SumOver(Members(RepairTable(code, k, r, z), c, k + r + z), WeightedWord(code, k, r, z, x)) == 0
  {
    hide RepairTable, WeightedWord, Members, SumOver;
    AllGroupSum(code, k, r, z, x, c);
  }
}
