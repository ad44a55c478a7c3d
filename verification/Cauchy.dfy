/** Why any k rows of [I; Cauchy] determine the data: as many Cauchy rows as there are unknowns leave
    only the zero solution. One unknown and one row are eliminated at a time. */
module Cauchy {
  import opened Field
  import opened Tables
  import opened LinearAlgebra

  /** The conversion of an index to unsigned char. */
  function Byte(i: nat): byte { (i % 256) as byte }

  lemma ByteBack(i: nat)
    requires i < 256
    ensures Byte(i) as int == i
  {
    assert i % 256 == i;
  }

  lemma ByteInjective(i: nat, j: nat)
    requires i < 256 && j < 256 && i != j
    ensures Byte(i) != Byte(j) && Add(Byte(i), Byte(j)) != 0
  {
    hide *;
    ByteBack(i);
    ByteBack(j);
    AddCancel(Byte(i), Byte(j));
  }

  /** Row p of the Cauchy part: 1 / (p + j). */
  function CauchyRow(n: nat, p: nat): (u: Vec)
    ensures |u| == n
    ensures forall j :: 0 <= j < n ==> u[j] == GfInv(Add(Byte(p), Byte(j)))
  {
    seq(n, j requires 0 <= j < n => GfInv(Add(Byte(p), Byte(j))))
  }

  /** c + j for every column j. */
  function Shifts(n: nat, c: byte): (u: Vec)
    ensures |u| == n
    ensures forall j :: 0 <= j < n ==> u[j] == Add(c, Byte(j))
  {
    seq(n, j requires 0 <= j < n => Add(c, Byte(j)))
  }

  function Ones(n: nat): (u: Vec)
    ensures |u| == n
    ensures forall j :: 0 <= j < n ==> u[j] == 1
  {
    seq(n, j => 1)
  }

  lemma ShiftsDiffer(n: nat, c: byte, d: byte, y: Vec)
    requires |y| == n
    ensures Dot(Shifts(n, c), y, n) == Add(Dot(Shifts(n, d), y, n), Mul(Add(c, d), Dot(Ones(n), y, n)))
  {
    hide Add, Mul, Dot, Byte, Shifts, Ones;
    forall j | 0 <= j < n
      ensures Shifts(n, c)[j] == Add(Shifts(n, d)[j], Mul(Add(c, d), Ones(n)[j]))
    {
      MulOne(Add(c, d));
      var b := Byte(j);
      AddSwap(d, b, c, d);
      AddComm(c, d);
      AddAssoc(d, b, Add(d, c));
      AddComm(b, Add(d, c));
      AddAssoc(d, Add(d, c), b);
      AddCancel(d, c);
    }
    DotLinear(Shifts(n, c), Shifts(n, d), Add(c, d), Ones(n), y, n);
  }

  function EliminatedAt(x: byte, p: nat, e: nat, j: nat): byte {
    Mul(Mul(x, GfInv(Add(Byte(p), Byte(j)))), Add(Byte(e), Byte(j)))
  }

  /** x_j * (j + e) / (p + j): what is left of the unknowns once unknown e is eliminated with row p. */
  function Eliminated(x: Vec, p: nat, e: nat): (w: Vec)
    ensures |w| == |x|
    ensures forall j :: 0 <= j < |x| ==> w[j] == EliminatedAt(x[j], p, e, j)
  {
    seq(|x|, j requires 0 <= j < |x| => EliminatedAt(x[j], p, e, j))
  }

  function Quotient(x: byte, p: nat, q: nat, j: nat): byte {
    Mul(Mul(x, GfInv(Add(Byte(p), Byte(j)))), GfInv(Add(Byte(q), Byte(j))))
  }

  function Quotients(x: Vec, p: nat, q: nat): (y: Vec)
    ensures |y| == |x|
    ensures forall j :: 0 <= j < |x| ==> y[j] == Quotient(x[j], p, q, j)
  {
    seq(|x|, j requires 0 <= j < |x| => Quotient(x[j], p, q, j))
  }

  lemma CancelQuotient(x: byte, a: byte, u: byte, v: byte)
    requires Mul(u, v) == 1
    ensures Mul(u, Mul(Mul(x, a), v)) == Mul(a, x)
  {
    hide *;
    MulComm(u, Mul(Mul(x, a), v));
    MulAssoc(Mul(x, a), v, u);
    MulComm(v, u);
    MulOne(Mul(x, a));
    MulComm(x, a);
  }

  lemma ExchangeQuotient(x: byte, a: byte, b: byte)
    ensures Mul(Mul(x, a), b) == Mul(Mul(x, b), a)
  {
    hide *;
    MulAssoc(x, a, b);
    MulComm(a, b);
    MulAssoc(x, b, a);
  }

  /** Row q over x is the shifts by p over the quotients. */
  lemma RowAsQuotients(n: nat, p: nat, q: nat, x: Vec)
    requires |x| == n <= 256 && n <= p < 256
    ensures Dot(CauchyRow(n, q), x, n) == Dot(Shifts(n, Byte(p)), Quotients(x, p, q), n)
  {
    hide Add, Mul, Dot, Byte, GfInv, CauchyRow, Shifts, Quotients;
    forall j | 0 <= j < n
      ensures Mul(CauchyRow(n, q)[j], x[j]) == Mul(Shifts(n, Byte(p))[j], Quotients(x, p, q)[j])
    {
      ByteInjective(p, j);
      InvNonzero(Add(Byte(p), Byte(j)));
      ExchangeQuotient(x[j], GfInv(Add(Byte(p), Byte(j))), GfInv(Add(Byte(q), Byte(j))));
      CancelQuotient(x[j], GfInv(Add(Byte(q), Byte(j))), Add(Byte(p), Byte(j)), GfInv(Add(Byte(p), Byte(j))));
    }
    DotSame(CauchyRow(n, q), Shifts(n, Byte(p)), x, Quotients(x, p, q), n);
  }

  lemma QuotientsSymmetric(x: Vec, p: nat, q: nat)
    ensures Quotients(x, p, q) == Quotients(x, q, p)
  {
    hide Add, Mul, Byte, GfInv, Quotients;
    forall j | 0 <= j < |x| ensures Quotients(x, p, q)[j] == Quotients(x, q, p)[j] {
      ExchangeQuotient(x[j], GfInv(Add(Byte(p), Byte(j))), GfInv(Add(Byte(q), Byte(j))));
    }
  }

  lemma EliminatedRow(n: nat, p: nat, q: nat, e: nat, x: Vec)
    requires |x| == n
    ensures Dot(CauchyRow(n, q), Eliminated(x, p, e), n) == Dot(Shifts(n, Byte(e)), Quotients(x, p, q), n)
  {
    hide Add, Mul, Dot, Byte, GfInv, CauchyRow, Shifts, Quotients, Eliminated;
    forall j | 0 <= j < n
      ensures Mul(CauchyRow(n, q)[j], Eliminated(x, p, e)[j]) == Mul(Shifts(n, Byte(e))[j], Quotients(x, p, q)[j])
    {
      var a, b := GfInv(Add(Byte(p), Byte(j))), GfInv(Add(Byte(q), Byte(j)));
      var d := Add(Byte(e), Byte(j));
      MulComm(b, Mul(Mul(x[j], a), d));
      ExchangeQuotient(Mul(x[j], a), d, b);
      MulComm(Mul(Mul(x[j], a), b), d);
    }
    DotSame(CauchyRow(n, q), Shifts(n, Byte(e)), Eliminated(x, p, e), Quotients(x, p, q), n);
  }

  /** Eliminating unknown e with row p keeps every other row's equation. */
  lemma EliminationStep(n: nat, p: nat, q: nat, e: nat, x: Vec)
    requires |x| == n <= 256 && n <= p < 256 && n <= q < 256 && p != q
    requires Dot(CauchyRow(n, p), x, n) == 0 && Dot(CauchyRow(n, q), x, n) == 0
    ensures Dot(CauchyRow(n, q), Eliminated(x, p, e), n) == 0
  {
    hide Add, Mul, Dot, Byte, GfInv, CauchyRow, Shifts, Quotients, Eliminated, Ones;
    var y := Quotients(x, p, q);
    var total := Dot(Ones(n), y, n);
    RowAsQuotients(n, p, q, x);
    RowAsQuotients(n, q, p, x);
    QuotientsSymmetric(x, p, q);
    assert Dot(Shifts(n, Byte(p)), y, n) == 0 && Dot(Shifts(n, Byte(q)), y, n) == 0;
    ShiftsDiffer(n, Byte(p), Byte(q), y);
    AddZero(Mul(Add(Byte(p), Byte(q)), total));
    ByteInjective(p, q);
    MulNonzero(Add(Byte(p), Byte(q)), total);
    assert total == 0;
    ShiftsDiffer(n, Byte(e), Byte(q), y);
    MulZero(Add(Byte(e), Byte(q)));
    AddZero(0);
    EliminatedRow(n, p, q, e, x);
  }

  /** Unknowns only at the columns in cols, and at least as many equations as unknowns. */
  lemma {:induction false} CauchyIndependent(n: nat, cols: set<nat>, rows: set<nat>, x: Vec)
    requires |x| == n <= 256
    requires forall j :: 0 <= j < n && x[j] != 0 ==> j in cols
    requires forall j :: j in cols ==> j < n
    requires forall p :: p in rows ==> n <= p < 256
    requires |cols| <= |rows|
    requires forall p :: p in rows ==> Dot(CauchyRow(n, p), x, n) == 0
    ensures IsZero(x)
    decreases |cols|
  {
    hide Add, Mul, Dot, Byte, GfInv, CauchyRow, Eliminated;
    if cols == {} {
    } else {
      var e :| e in cols;
      assert rows != {};
      var p :| p in rows;
      var w := Eliminated(x, p, e);
      forall j | 0 <= j < n && w[j] != 0 ensures j in cols - {e} {
        MulZero(GfInv(Add(Byte(p), Byte(j))));
        MulZero(Add(Byte(e), Byte(j)));
        if j == e {
          AddZero(Byte(e));
          MulZero(Mul(x[j], GfInv(Add(Byte(p), Byte(j)))));
        }
      }
      forall q | q in rows - {p} ensures Dot(CauchyRow(n, q), w, n) == 0 {
        EliminationStep(n, p, q, e, x);
      }
      CauchyIndependent(n, cols - {e}, rows - {p}, w);
      forall j | 0 <= j < n && j != e ensures x[j] == 0 {
        UneliminatedZero(x[j], p, e, j);
      }
      DotSingle(CauchyRow(n, p), x, n, e);
      ByteInjective(p, e);
      InvNonzero(Add(Byte(p), Byte(e)));
      MulNonzero(CauchyRow(n, p)[e], x[e]);
    }
  }

  lemma UneliminatedZero(x: byte, p: nat, e: nat, j: nat)
    requires j < p < 256 && e < 256 && j != e
    requires Mul(Mul(x, GfInv(Add(Byte(p), Byte(j)))), Add(Byte(e), Byte(j))) == 0
    ensures x == 0
  {
    hide Add, Mul, Byte, GfInv;
    ByteInjective(p, j);
    ByteInjective(e, j);
    InvNonzero(Add(Byte(p), Byte(j)));
    MulNonzero(Mul(x, GfInv(Add(Byte(p), Byte(j)))), Add(Byte(e), Byte(j)));
    MulNonzero(x, GfInv(Add(Byte(p), Byte(j))));
  }
}
