/** Why rows of consecutive powers at distinct points are independent: a polynomial with at least as many
    roots as coefficients is zero. Roots are divided out one at a time. */
module Vandermonde {
  import opened Field
  import opened Tables
  import opened LinearAlgebra

  function Pow(a: byte, j: nat): byte { if j == 0 then 1 else Mul(Pow(a, j - 1), a) }

  function PowerRow(n: nat, a: byte): (u: Vec)
    ensures |u| == n
    ensures forall j :: 0 <= j < n ==> u[j] == Pow(a, j)
  {
    seq(n, j requires 0 <= j < n => Pow(a, j))
  }

  lemma {:induction false} PowerOfPower(e: nat, j: nat)
    ensures Pow(Power2(e), j) == Power2(e * j)
    decreases j
  {
    hide Mul, Double;
    if j > 0 {
      PowerOfPower(e, j - 1);
      Power2Sum(e * (j - 1), e);
      assert e * (j - 1) + e == e * j;
    }
  }

  /** The value at a of the polynomial with coefficients c, lowest first. */
  function Eval(c: Vec, a: byte): byte {
    if c == [] then 0 else Add(c[0], Mul(a, Eval(c[1..], a)))
  }

  lemma {:induction false} EvalAppend(c: Vec, d: byte, a: byte)
    ensures Eval(c + [d], a) == Add(Eval(c, a), Mul(Pow(a, |c|), d))
  {
    hide Add, Mul;
    if c == [] {
      MulZero(a);
      AddZero(d);
      MulOne(d);
      assert Eval([], a) == 0;
      assert ([d])[1..] == [];
    } else {
      var n := |c| - 1;
      EvalAppend(c[1..], d, a);
      assert (c + [d])[1..] == c[1..] + [d];
      MulAdd(Eval(c[1..], a), Mul(Pow(a, n), d), a);
      AddAssoc(c[0], Mul(a, Eval(c[1..], a)), Mul(a, Mul(Pow(a, n), d)));
      MulAssoc(a, Pow(a, n), d);
      MulComm(a, Pow(a, n));
    }
  }

  lemma {:induction false} PowerRowEval(n: nat, a: byte, x: Vec, s: nat)
    requires s <= n == |x|
    ensures Dot(PowerRow(n, a), x, s) == Eval(x[..s], a)
    decreases s
  {
    hide Add, Mul, Pow;
    if s == 0 {
    } else {
      PowerRowEval(n, a, x, s - 1);
      EvalAppend(x[..s - 1], x[s - 1], a);
      assert x[..s] == x[..s - 1] + [x[s - 1]];
    }
  }

  /** The quotient of c by (X + p). */
  function Quotient(c: Vec, p: byte): (q: Vec)
    ensures |q| == if |c| <= 1 then 0 else |c| - 1
  {
    if |c| <= 1 then [] else [Eval(c[1..], p)] + Quotient(c[1..], p)
  }

  lemma DivisionStep(p: byte, q: byte, rp: byte, rq: byte, h: byte)
    requires Add(rq, rp) == Mul(Add(q, p), h)
    ensures Add(Mul(q, rq), Mul(p, rp)) == Mul(Add(q, p), Add(rp, Mul(q, h)))
  {
    hide *;
    MulAdd(rp, Mul(q, h), Add(q, p));
    // (q + p) * (q * h) == q * (rq + rp)
    MulComm(q, h);
    MulAssoc(Add(q, p), h, q);
    MulComm(Mul(Add(q, p), h), q);
    MulAdd(rq, rp, q);
    MulAdd(q, p, rp);
    // (q rp + p rp) + (q rq + q rp) == q rq + p rp
    var a, b, c := Mul(q, rp), Mul(p, rp), Mul(q, rq);
    AddComm(c, a);
    AddSwap(a, b, a, c);
    AddZero(a);
    AddZero(Add(b, c));
    AddComm(b, c);
  }

  lemma {:induction false} Division(c: Vec, p: byte, q: byte)
    ensures Add(Eval(c, q), Eval(c, p)) == Mul(Add(q, p), Eval(Quotient(c, p), q))
  {
    hide Add, Mul;
    if |c| <= 1 {
      MulZero(Add(q, p));
      AddZero(Eval(c, q));
      if |c| == 1 {
        assert c[1..] == [];
        MulZero(p);
        MulZero(q);
      }
    } else {
      var r := c[1..];
      Division(r, p, q);
      var h := Eval(Quotient(r, p), q);
      DivisionStep(p, q, Eval(r, p), Eval(r, q), h);
      assert Quotient(c, p)[1..] == Quotient(r, p);
      AddSwap(c[0], Mul(q, Eval(r, q)), c[0], Mul(p, Eval(r, p)));
      AddZero(c[0]);
      AddZero(Add(Mul(q, Eval(r, q)), Mul(p, Eval(r, p))));
    }
  }

  lemma {:induction false} QuotientZero(c: Vec, p: byte)
    requires IsZero(Quotient(c, p)) && Eval(c, p) == 0
    ensures IsZero(c)
  {
    hide Add, Mul;
    if |c| == 0 {
    } else {
      var r := c[1..];
      if |c| > 1 {
        assert Quotient(c, p)[0] == 0;
        assert Quotient(r, p) == Quotient(c, p)[1..];
        QuotientZero(r, p);
      }
      MulZero(p);
      AddZero(c[0]);
      assert Eval(r, p) == 0;
      assert c == [c[0]] + r;
    }
  }

  ghost predicate Distinct(points: seq<byte>) {
    forall i, j :: 0 <= i < j < |points| ==> points[i] != points[j]
  }

  lemma {:induction false} RootCount(c: Vec, points: seq<byte>)
    requires |c| <= |points| && Distinct(points)
    requires forall i :: 0 <= i < |points| ==> Eval(c, points[i]) == 0
    ensures IsZero(c)
    decreases |c|
  {
    hide Add, Mul, Eval, Quotient;
    if c == [] {
    } else {
      var p, rest := points[0], points[1..];
      forall i | 0 <= i < |rest| ensures Eval(Quotient(c, p), rest[i]) == 0 {
        var q := rest[i];
        assert q == points[i + 1];
        Division(c, p, q);
        AddZero(0);
        AddCancel(q, p);
        MulNonzero(Add(q, p), Eval(Quotient(c, p), q));
      }
      RootCount(Quotient(c, p), rest);
      QuotientZero(c, p);
    }
  }

  /** Unknowns in the first s columns and power rows at s or more distinct points. */
  lemma PowersIndependent(n: nat, s: nat, points: seq<byte>, x: Vec)
    requires s <= n == |x| && s <= |points| && Distinct(points)
    requires forall j :: s <= j < n ==> x[j] == 0
    requires forall i :: 0 <= i < |points| ==> Dot(PowerRow(n, points[i]), x, n) == 0
    ensures IsZero(x)
  {
    hide Add, Mul, Pow, Eval, PowerRow;
    forall i | 0 <= i < |points| ensures Eval(x[..s], points[i]) == 0 {
      DotTail(PowerRow(n, points[i]), x, s, n);
      PowerRowEval(n, points[i], x, s);
    }
    RootCount(x[..s], points);
    forall j | 0 <= j < s ensures x[j] == 0 {
      assert x[..s][j] == x[j];
    }
  }

  lemma {:induction false} DotTail(u: Vec, x: Vec, s: nat, n: nat)
    requires s <= n <= |x| && n <= |u|
    requires forall j :: s <= j < n ==> x[j] == 0
    ensures Dot(u, x, n) == Dot(u, x, s)
    decreases n
  {
    hide Add, Mul;
    if n == s {
    } else {
      DotTail(u, x, s, n - 1);
      MulZero(u[n - 1]);
      AddZero(Dot(u, x, n - 1));
    }
  }
}
