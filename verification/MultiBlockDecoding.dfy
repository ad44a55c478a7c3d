/** The multi-block decode plan on the real generator matrices: a plan, when one is returned, decodes; and for
    the two Cauchy codes one is returned for every set of at most r failures. */
module MultiBlockDecoding {
  import opened Arithmetic
  import opened Field
  import opened LinearAlgebra
  import opened DecodePlanner
  import opened Cauchy
  import opened Generators
  import opened ParityEquations

  function Range(lo: nat, hi: nat): (s: set<nat>)
    requires lo <= hi
    ensures forall i :: i in s <==> lo <= i < hi
    ensures |s| == hi - lo
    decreases hi
  {
    if lo == hi then {} else Range(lo, hi - 1) + {hi - 1}
  }

  /** At least k of the first k + r blocks survive r failures. */
  lemma EnoughSurvivors(k: nat, r: nat, z: nat, failed: set<nat>)
    requires |failed| <= r
    ensures |Below(k + r + z, failed)| >= k
  {
    hide Range;
    BelowGrows(k + r, k + r + z, failed);
    SizeOfDifference(Range(0, k + r), failed);
    assert Below(k + r, failed) == Range(0, k + r) - failed;
  }

  lemma SizeOfDifference(a: set<nat>, b: set<nat>)
    ensures |a - b| >= |a| - |b|
  {
    assert a <= (a - b) + b;
    SubsetSize(a, (a - b) + b);
  }

  /** As many parities survive as data blocks are lost. */
  lemma FailureBalance(k: nat, r: nat, failed: set<nat>)
    requires |failed| <= r
    ensures |Range(0, k) * failed| <= |Range(k, k + r) - failed|
  {
    hide Range;
    var cols, parities := Range(0, k) * failed, Range(k, k + r);
    LostParities(k, r, failed);
    SizeOfDifference(parities, failed - cols);
    assert |failed| == |failed - cols| + |cols| by { assert failed == (failed - cols) + cols; }
  }

  lemma LostParities(k: nat, r: nat, failed: set<nat>)
    ensures Range(k, k + r) - (failed - Range(0, k) * failed) == Range(k, k + r) - failed
    ensures |Range(k, k + r)| == r
  {
  }

  /** A vector killed by every surviving row of [I; Cauchy] is zero if at most r rows are missing. */
  lemma MdsKernel(code: Code, k: nat, r: nat, failed: set<nat>, x: Vec)
    requires code.OptimalLRC? || code.UniformLRC?
    requires k + r <= 256 && |failed| <= r && |x| == k
    requires forall i :: 0 <= i < k + r && i !in failed ==> Dot(GlobalRow(code, k, i), x, k) == 0
    ensures IsZero(x)
  {
    hide Dot, Unit, CauchyRow, Range, IsZero;
    var cols := Range(0, k) * failed;
    var rows := Range(k, k + r) - failed;
    FailureBalance(k, r, failed);
    forall j | 0 <= j < k && x[j] != 0 ensures j in cols {
      DotUnit(k, j, x);
    }
    forall p | p in rows ensures Dot(CauchyRow(k, p), x, k) == 0 {
      assert GlobalRow(code, k, p) == CauchyRow(k, p);
    }
    hide GlobalRow;
    CauchyIndependent(k, cols, rows, x);
  }

  lemma MdsPlannable(code: Code, k: nat, r: nat, z: nat, failed: set<nat>)
    requires code.OptimalLRC? || code.UniformLRC?
    requires Shape(code, k, r, z) && k + r <= 256 && |failed| <= r
    ensures Plannable(Generator(code, k, r, z), k, r, z, failed)
  {
    hide Dot, GlobalRow, LocalRow, Shape;
    EnoughSurvivors(k, r, z, failed);
    var g, rows := Generator(code, k, r, z), Considered(k, r, z, failed);
    forall x: Vec | |x| == k && SentToZero(g, rows, x) ensures IsZero(x) {
      forall i | 0 <= i < k + r && i !in failed ensures Dot(GlobalRow(code, k, i), x, k) == 0 {
        assert i in rows && g[i] == GlobalRow(code, k, i);
      }
      MdsKernel(code, k, r, failed, x);
    }
  }

  // ----- AzureLRC without its global parities

  /** Of the data blocks and global parities, block `lost` and all global parities have failed. */
  ghost predicate GlobalsLost(k: nat, r: nat, failed: set<nat>, lost: nat) {
    lost < k && forall b: nat :: b < k + r ==> (b in failed <==> b == lost || b >= k)
  }

  /** With data in one block only, its local parity is a copy of it, and the others are zero. */
  lemma AzureRow(k: nat, r: nat, z: nat, lost: nat, b: nat, x: Vec)
    requires Shape(AzureLRC, k, r, z) && lost < k == |x| && (b < k || k + r <= b < k + r + z)
    requires forall j :: 0 <= j < k && j != lost ==> x[j] == 0
    ensures Dot(Generator(AzureLRC, k, r, z)[b], x, k) == if b == lost || b == k + r + lost / (k / z) then x[lost] else 0
  {
    hide Dot, Mul, Unit, LocalPart;
    MulOne(x[lost]);
    MulZero(x[lost]);
    if b < k {
      DotUnit(k, b, x);
    } else {
      var u := LocalPart(AzureLRC, k, r, z, b - k - r);
      assert Generator(AzureLRC, k, r, z)[b] == u;
      DotSingle(u, x, k, lost);
    }
  }

  lemma AzureDataRow(k: nat, r: nat, z: nat, j: nat, x: Vec)
    requires Shape(AzureLRC, k, r, z) && j < k == |x|
    ensures Dot(Generator(AzureLRC, k, r, z)[j], x, k) == x[j]
  {
    hide Dot, Unit, Shape;
    DotUnit(k, j, x);
  }

  /** The other data blocks, with some local parities, determine the data exactly if the lost block's local parity is there. */
  lemma AzureRows(k: nat, r: nat, z: nat, lost: nat, rows: set<nat>)
    requires Shape(AzureLRC, k, r, z) && lost < k && forall b :: b in rows ==> b < k + r + z
    requires forall b: nat :: b < k + r ==> (b in rows <==> b < k && b != lost)
    ensures RowsDetermine(Generator(AzureLRC, k, r, z), rows, k) <==> k + r + lost / (k / z) in rows
  {
    hide Dot, Unit, Generator;
    var g, at := Generator(AzureLRC, k, r, z), k + r + lost / (k / z);
    if at in rows {
      forall x: Vec | |x| == k && SentToZero(g, rows, x) ensures IsZero(x) {
        forall j: nat | j < k && j != lost ensures x[j] == 0 {
          assert j in rows;
          AzureDataRow(k, r, z, j, x);
        }
        AzureRow(k, r, z, lost, at, x);
      }
    } else {
      var x := Unit(k, lost);
      forall b | b in rows ensures Dot(g[b], x, k) == 0 {
        AzureRow(k, r, z, lost, b, x);
      }
      assert SentToZero(g, rows, x) && x[lost] == 1;
    }
  }

  lemma LocalOf(k: nat, r: nat, z: nat, lost: nat)
    requires Shape(AzureLRC, k, r, z) && lost < k
    ensures k / z > 0 && lost / (k / z) < z
  {
    LocalRowInRange(AzureLRC, k, r, z, lost);
  }

  /** The lost block's local parity survives, and those before it failed. */
  ghost predicate FirstLocalLeft(k: nat, r: nat, failed: set<nat>, l: nat) {
    k + r + l !in failed && forall b: nat :: k + r <= b < k + r + l ==> b in failed
  }

  lemma NoneBetween(m: nat, n: nat, failed: set<nat>)
    requires m <= n
    ensures |Below(n, failed)| == |Below(m, failed)| <==> forall b: nat :: m <= b < n ==> b in failed
  {
    SubsetSize(Below(m, failed), Below(n, failed));
    if forall b: nat :: m <= b < n ==> b in failed {
      assert Below(n, failed) == Below(m, failed);
    }
    if Below(n, failed) == Below(m, failed) {
      forall b: nat | m <= b < n ensures b in failed {
        assert b !in Below(m, failed);
      }
    }
  }

  lemma OneDataLost(k: nat, r: nat, failed: set<nat>, lost: nat)
    requires GlobalsLost(k, r, failed, lost)
    ensures |Below(k + r, failed)| == k - 1
  {
    hide Range;
    assert Below(k + r, failed) == Range(0, k) - {lost};
    assert |Range(0, k) - {lost}| == k - 1;
  }

  lemma AzureConsidered(k: nat, r: nat, z: nat, failed: set<nat>, lost: nat, l: nat)
    requires GlobalsLost(k, r, failed, lost) && l < z
    ensures FirstLocalLeft(k, r, failed, l) <==> k + r + l in Considered(k, r, z, failed)
    ensures k + r + l !in failed ==> |Below(k + r + z, failed)| >= k
  {
    hide Below;
    OneDataLost(k, r, failed, lost);
    BelowGrows(k + r, k + r + l, failed);
    NoneBetween(k + r, k + r + l, failed);
    if k + r + l !in failed {
      NoneBetween(k + r, k + r + z, failed);
      BelowGrows(k + r, k + r + z, failed);
    }
  }

  /** With one data block and all global parities lost, a plan is found exactly if the lost block's local parity is the first one
      that survives; the surviving blocks determine the data also when it is a later one. */
  lemma AzureWithoutGlobals(k: nat, r: nat, z: nat, failed: set<nat>, lost: nat)
    requires Shape(AzureLRC, k, r, z) && GlobalsLost(k, r, failed, lost)
    ensures k / z > 0
    ensures var g, l := Generator(AzureLRC, k, r, z), lost / (k / z);
      && (Plannable(g, k, r, z, failed) <==> FirstLocalLeft(k, r, failed, l))
      && (RowsDetermine(g, Below(k + r + z, failed), k) <==> k + r + l !in failed)
  {
    hide RowsDetermine, FirstLocalLeft;
    LocalOf(k, r, z, lost);
    var l := lost / (k / z);
    AzureConsidered(k, r, z, failed, lost, l);
    AzureRows(k, r, z, lost, Considered(k, r, z, failed));
    AzureRows(k, r, z, lost, Below(k + r + z, failed));
  }

  /** A loss that the survivors make up for, but for which no plan is found. */
  lemma PlanMissed()
    ensures var g, failed := Generator(AzureLRC, 4, 2, 2), {2, 4, 5};
      RowsDetermine(g, Below(8, failed), 4) && !Plannable(g, 4, 2, 2, failed)
  {
    hide RowsDetermine, Plannable, Generator;
    var failed := {2, 4, 5};
    AzureWithoutGlobals(4, 2, 2, failed, 2);
    assert 6 !in failed;
  }

  lemma ShapeQuotient(code: Code, k: nat, r: nat, z: nat)
    requires Shape(code, k, r, z) && code.AzureLRC?
    ensures z > 0 && k / z > 0
  {
  }

  /** The supported code types; an unknown one is refused. */
  datatype CodeType = Known(code: Code) | Unknown(name: string)

  method GetMultiDecodePlan(codeType: CodeType, k: nat, r: nat, z: nat, failed: seq<nat>) returns (plan: Option<Plan>)
    requires codeType.Known? ==> Shape(codeType.code, k, r, z)
    requires forall t :: 0 <= t < |failed| ==> failed[t] < k + r + z
    ensures codeType.Unknown? ==> plan.None?
    ensures codeType.Known? && plan.Some? ==>
      ValidPlan(Generator(codeType.code, k, r, z), k, failed, plan.value)
    ensures codeType.Known? && (codeType.code.OptimalLRC? || codeType.code.UniformLRC?) ==>
      (k + r <= 256 && |AsSet(failed)| <= r ==> plan.Some?)
    ensures codeType.Known? ==>
      (plan.Some? <==> Plannable(Generator(codeType.code, k, r, z), k, r, z, AsSet(failed)))
    ensures codeType == Known(AzureLRC) ==> k / z > 0
    ensures codeType == Known(AzureLRC) ==> forall lost: nat :: GlobalsLost(k, r, AsSet(failed), lost) ==>
      (plan.Some? <==> FirstLocalLeft(k, r, AsSet(failed), lost / (k / z)))
  {
    match codeType {
      case Unknown(_) =>
        plan := None;
      case Known(code) =>
        hide Generator, Plannable, ValidPlan, Shape, GlobalsLost, FirstLocalLeft;
        var gen := GenMatrix(code, k, r, z);
        plan := PlanDecoding(gen, k, r, z, failed);
        if (code.OptimalLRC? || code.UniformLRC?) && k + r <= 256 && |AsSet(failed)| <= r {
          MdsPlannable(code, k, r, z, AsSet(failed));
        }
        if code.AzureLRC? {
          ShapeQuotient(code, k, r, z);
          forall lost: nat | GlobalsLost(k, r, AsSet(failed), lost)
            ensures plan.Some? <==> FirstLocalLeft(k, r, AsSet(failed), lost / (k / z))
          {
            AzureWithoutGlobals(k, r, z, AsSet(failed), lost);
          }
        }
    }
  }
}
