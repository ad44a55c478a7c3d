/** Encoding: the nibble tables of the vector kernels, the byte-by-byte encoder for short blocks, and
    the dispatch that hands up to six output rows at a time to a kernel. All of
    them compute the plain matrix-vector product at every byte position. */
module Encoder {
  import opened Arithmetic
  import opened Field
  import opened Tables
  import opened LinearAlgebra
  import opened GaussJordan

  // ----- the tables

  /** The products of c with the sixteen nibbles. */
  function LowTable(c: byte): (t: seq<byte>)
    ensures |t| == 16
  {
    [Mul(c, 0), Mul(c, 1), Mul(c, 2), Mul(c, 3), Mul(c, 4), Mul(c, 5), Mul(c, 6), Mul(c, 7),
     Mul(c, 8), Mul(c, 9), Mul(c, 10), Mul(c, 11), Mul(c, 12), Mul(c, 13), Mul(c, 14), Mul(c, 15)]
  }

  /** What the 32 table bytes of a coefficient are for: its products with the low nibbles, then with the
      high nibbles, which count sixteenfold. */
  function NibbleTable(c: byte): (t: seq<byte>)
    ensures |t| == 32
  {
    LowTable(c) + LowTable(Mul(c, 16))
  }

  lemma SumProduct(c: byte, a: byte, b: byte)
    ensures Mul(c, a ^ b) == Add(Mul(c, a), Mul(c, b))
  {
    MulAdd(a, b, c);
  }

  lemma SingleBits(c: byte)
    ensures Mul(c, 0) == 0 && Mul(c, 1) == c && Mul(c, 2) == Double(c)
    ensures Mul(c, 4) == Double(Double(c)) && Mul(c, 8) == Double(Double(Double(c)))
    ensures Mul(c, 16) == Double(Double(Double(Double(c))))
  {
    MulZero(c);
    MulOne(c);
    DoubleRight(c, 1);
    DoubleRight(c, 2);
    DoubleRight(c, 4);
    DoubleRight(c, 8);
    hide Mul;
    assert Double(1) == 2 && Double(2) == 4 && Double(4) == 8 && Double(8) == 16;
  }

  lemma DoubleRight(c: byte, a: byte)
    ensures Mul(c, Double(a)) == Double(Mul(c, a))
  {
    hide *;
    MulComm(c, Double(a));
    MulDouble(a, c);
    MulComm(a, c);
  }

  lemma LowProducts(c: byte)
    ensures Mul(c, 3) == Add(Mul(c, 2), Mul(c, 1))
    ensures Mul(c, 5) == Add(Mul(c, 4), Mul(c, 1))
    ensures Mul(c, 6) == Add(Mul(c, 4), Mul(c, 2))
    ensures Mul(c, 7) == Add(Mul(c, 4), Mul(c, 3))
    ensures Mul(c, 9) == Add(Mul(c, 8), Mul(c, 1))
    ensures Mul(c, 10) == Add(Mul(c, 8), Mul(c, 2))
    ensures Mul(c, 11) == Add(Mul(c, 8), Mul(c, 3))
    ensures Mul(c, 12) == Add(Mul(c, 8), Mul(c, 4))
    ensures Mul(c, 13) == Add(Mul(c, 8), Mul(c, 5))
    ensures Mul(c, 14) == Add(Mul(c, 8), Mul(c, 6))
    ensures Mul(c, 15) == Add(Mul(c, 8), Mul(c, 7))
  {
    hide *;
    SumProduct(c, 2, 1);
    SumProduct(c, 4, 1);
    SumProduct(c, 4, 2);
    SumProduct(c, 4, 3);
    SumProduct(c, 8, 1);
    SumProduct(c, 8, 2);
    SumProduct(c, 8, 3);
    SumProduct(c, 8, 4);
    SumProduct(c, 8, 5);
    SumProduct(c, 8, 6);
    SumProduct(c, 8, 7);
  }

  /** The 32 table bytes for one coefficient, from seven doublings and 22 additions. */
  method GfVectMulInit(c: byte) returns (tbl: seq<byte>)
    ensures tbl == NibbleTable(c)
  {
    hide Add, Mul, Double, LowTable;
    var c2 := Double(c);
    var c4 := Double(c2);
    var c8 := Double(c4);
    SingleBits(c);
    var low := Combinations(c, c2, c4, c8);
    var c17 := Double(c8);
    var c18 := Double(c17);
    var c20 := Double(c18);
    var c24 := Double(c20);
    SingleBits(c17);
    var high := Combinations(c17, c18, c20, c24);
    tbl := low + high;
  }

  /** All sixteen sums of c, 2c, 4c and 8c. */
  method Combinations(c: byte, c2: byte, c4: byte, c8: byte) returns (t: seq<byte>)
    requires c2 == Mul(c, 2) && c4 == Mul(c, 4) && c8 == Mul(c, 8)
    ensures t == LowTable(c)
  {
    hide Add, Mul;
    SingleBits(c);
    LowProducts(c);
    var c3 := Add(c2, c);
    var c5, c6, c7 := Add(c4, c), Add(c4, c2), Add(c4, c3);
    var c9, c10, c11, c12 := Add(c8, c), Add(c8, c2), Add(c8, c3), Add(c8, c4);
    var c13, c14, c15 := Add(c8, c5), Add(c8, c6), Add(c8, c7);
    t := [0, c, c2, c3, c4, c5, c6, c7, c8, c9, c10, c11, c12, c13, c14, c15];
  }

  lemma LowLookup(c: byte, b: byte)
    requires b < 16
    ensures LowTable(c)[b as int] == Mul(c, b)
  {
    hide Mul;
    if
    case b == 0 => case b == 1 => case b == 2 => case b == 3 => case b == 4 => case b == 5 =>
    case b == 6 => case b == 7 => case b == 8 => case b == 9 => case b == 10 => case b == 11 =>
    case b == 12 => case b == 13 => case b == 14 => case b == 15 =>
  }

  lemma SplitByte(b: byte)
    ensures (b & 0xf) < 16 && (b >> 4) < 16
    ensures b == (b & 0xf) ^ Mul(16, b >> 4)
  {
    var h := b >> 4;
    assert h < 16;
    assert Double(h) == h + h && h + h < 32;
    assert Double(Double(h)) == 4 * h && 4 * h < 64;
    assert Double(Double(Double(h))) == 8 * h && 8 * h < 128;
    assert Double(Double(Double(Double(h)))) == 16 * h;
    assert Mul(16, h) == 16 * h by {
      SingleBits(h);
      MulComm(16, h);
    }
    assert b == (b & 0xf) ^ (16 * (b >> 4));
  }

  /** The product of a coefficient with b, read from the coefficient's table as the kernels do. */
  function TableProduct(t: seq<byte>, b: byte): byte
    requires |t| == 32
  {
    SplitByte(b);
    Add(t[(b & 0xf) as int], t[16 + (b >> 4) as int])
  }

  lemma TableProductCorrect(c: byte, b: byte)
    ensures TableProduct(NibbleTable(c), b) == Mul(c, b)
  {
    hide Add, Mul, LowTable;
    SplitByte(b);
    LowLookup(c, b & 0xf);
    LowLookup(Mul(c, 16), b >> 4);
    MulAssoc(c, 16, b >> 4);
    SumProduct(c, b & 0xf, Mul(16, b >> 4));
  }

  // ----- building the tables of a whole matrix

  /** The position of the coefficient in row l and column j of a matrix with k columns. */
  function Slot(k: nat, l: nat, j: nat): nat { l * k + j }

  lemma SlotOrder(k: nat, l: nat, j: nat, i: nat, c: nat)
    requires j < k && (l < i || (l == i && j < c))
    ensures Slot(k, l, j) < Slot(k, i, c)
  {
    if l < i {
      MulMono(l + 1, i, k);
    }
  }

  function TableAt(g: seq<byte>, slot: nat): (t: seq<byte>)
    requires 32 * slot + 32 <= |g|
    ensures |t| == 32
  {
    g[32 * slot..32 * slot + 32]
  }

  /** The tables of the coefficients before row i, column c are in place. */
  ghost predicate HaveTables(g: seq<byte>, m: Mat, k: nat, i: nat, c: nat)
    requires i <= |m| && c <= k && forall l :: 0 <= l < |m| ==> |m[l]| == k
  {
    && 32 * Slot(k, i, c) <= |g|
    && forall l, j :: 0 <= l < |m| && 0 <= j < k && (l < i || (l == i && j < c)) ==>
         32 * Slot(k, l, j) + 32 <= |g| && TableAt(g, Slot(k, l, j)) == NibbleTable(m[l][j])
  }

  method StoreTable(g: array<byte>, off: nat, t: seq<byte>)
    requires |t| == 32 && off + 32 <= g.Length
    modifies g
    ensures g[..] == old(g[..off]) + t + old(g[off + 32..])
  {
    ghost var before := g[..];
    for i := 0 to 32
      invariant g[..] == before[..off] + t[..i] + before[off + i..]
    {
      StoreStep(before, off, t, i);
      g[off + i] := t[i];
    }
  }

  lemma StoreStep(before: seq<byte>, off: nat, t: seq<byte>, i: nat)
    requires i < |t| && off + |t| <= |before|
    ensures (before[..off] + t[..i] + before[off + i..])[off + i := t[i]] == before[..off] + t[..i + 1] + before[off + i + 1..]
  {
  }

  lemma TableStored(before: seq<byte>, after: seq<byte>, m: Mat, k: nat, i: nat, c: nat)
    requires i < |m| && c < k && forall l :: 0 <= l < |m| ==> |m[l]| == k
    requires HaveTables(before, m, k, i, c) && 32 * Slot(k, i, c) + 32 <= |before|
    requires after == before[..32 * Slot(k, i, c)] + NibbleTable(m[i][c]) + before[32 * Slot(k, i, c) + 32..]
    ensures HaveTables(after, m, k, i, c + 1)
  {
    hide NibbleTable;
    assert Slot(k, i, c + 1) == Slot(k, i, c) + 1;
    forall l, j | 0 <= l < |m| && 0 <= j < k && (l < i || (l == i && j < c + 1))
      ensures 32 * Slot(k, l, j) + 32 <= |after| && TableAt(after, Slot(k, l, j)) == NibbleTable(m[l][j])
    {
      if l == i && j == c {
        assert TableAt(after, Slot(k, i, c)) == NibbleTable(m[i][c]);
      } else {
        SlotOrder(k, l, j, i, c);
        assert TableAt(after, Slot(k, l, j)) == TableAt(before, Slot(k, l, j));
      }
    }
  }

  lemma NoTables(g: seq<byte>, m: Mat, k: nat)
    requires forall l :: 0 <= l < |m| ==> |m[l]| == k
    ensures Slot(k, 0, 0) == 0 && HaveTables(g, m, k, 0, 0)
  {
    hide NibbleTable;
  }

  lemma NextSlot(rows: nat, k: nat, i: nat, j: nat)
    requires i < rows && j < k
    ensures Slot(k, i, j) + 1 == Slot(k, i, j + 1) <= rows * k
  {
    MulMono(i + 1, rows, k);
  }

  lemma RowOfTables(g: seq<byte>, m: Mat, k: nat, i: nat)
    requires i < |m| && (forall l :: 0 <= l < |m| ==> |m[l]| == k) && HaveTables(g, m, k, i, k)
    ensures Slot(k, i, k) == Slot(k, i + 1, 0) && HaveTables(g, m, k, i + 1, 0)
  {
    hide NibbleTable, TableAt;
  }

  /** Tables for all coefficients of a matrix, row by row. */
  method EcInitTables(k: nat, m: Mat, g: array<byte>)
    requires (forall l :: 0 <= l < |m| ==> |m[l]| == k) && g.Length == 32 * (|m| * k)
    modifies g
    ensures HaveTables(g[..], m, k, |m|, 0)
  {
    hide NibbleTable, HaveTables, Slot;
    var off := 0;
    NoTables(g[..], m, k);
    for i := 0 to |m|
      invariant off == 32 * Slot(k, i, 0)
      invariant HaveTables(g[..], m, k, i, 0)
    {
      for j := 0 to k
        invariant off == 32 * Slot(k, i, j)
        invariant HaveTables(g[..], m, k, i, j)
      {
        NextSlot(|m|, k, i, j);
        var t := GfVectMulInit(m[i][j]);
        ghost var before := g[..];
        StoreTable(g, off, t);
        TableStored(before, g[..], m, k, i, j);
        off := off + 32;
      }
      RowOfTables(g[..], m, k, i);
    }
  }

  // ----- encoding

  /** The bytes of all blocks at one position. */
  function At(blocks: seq<seq<byte>>, p: nat): (x: Vec)
    requires forall j :: 0 <= j < |blocks| ==> p < |blocks[j]|
    ensures |x| == |blocks|
    ensures forall j :: 0 <= j < |blocks| ==> x[j] == blocks[j][p]
  {
    seq(|blocks|, j requires 0 <= j < |blocks| => blocks[j][p])
  }

  /** out is the product of a matrix row with the data, at each of the first len bytes. */
  ghost predicate Encoded(out: seq<byte>, row: Vec, src: seq<seq<byte>>, len: nat)
    requires |row| == |src| && forall j :: 0 <= j < |src| ==> len <= |src[j]|
  {
    len <= |out| && forall p :: 0 <= p < len ==> out[p] == Dot(row, At(src, p), |src|)
  }

  /** A vector kernel reads the first source before it looks at their number, so there has to be one, unless no kernel is
      called: for blocks below 32 bytes, or without a row to compute. */
  predicate Encodable(sources: nat, rows: nat, len: nat) {
    sources > 0 || rows == 0 || len < 32
  }

  /** Contract of the vector kernels (gf_vect_dot_prod_avx2 to gf_6vect_dot_prod_avx2): n output rows from the
      tables that start at g[from]. */
  method DotProductKernel(n: nat, len: nat, k: nat, g: array<byte>, from: nat,
      src: seq<seq<byte>>, dest: array2<byte>, first: nat, ghost m: Mat)
    requires 1 <= n <= 6 && k > 0 && first + n <= dest.Length0 && len <= dest.Length1 && first + n <= |m|
    requires |src| == k && forall j :: 0 <= j < k ==> len <= |src[j]|
    requires forall l :: 0 <= l < |m| ==> |m[l]| == k
    requires from == 32 * Slot(k, first, 0) && HaveTables(g[..], m, k, |m|, 0)
    modifies dest
    ensures forall l :: first <= l < first + n ==> Encoded(Row(dest, l), m[l], src, len)
    ensures forall l :: 0 <= l < dest.Length0 && !(first <= l < first + n) ==> Row(dest, l) == old(Row(dest, l))
  {
    hide HaveTables, Slot, Encoded;
    for l := first to first + n
      invariant forall i :: 0 <= i < dest.Length0 && !(first <= i < l) ==> Row(dest, i) == old(Row(dest, i))
      invariant forall i :: first <= i < l ==> Encoded(Row(dest, i), m[i], src, len)
    {
      KernelRow(len, k, g, from, src, dest, first, l, m);
    }
  }

  method KernelRow(len: nat, k: nat, g: array<byte>, from: nat,
      src: seq<seq<byte>>, dest: array2<byte>, first: nat, l: nat, ghost m: Mat)
    requires first <= l < |m| && l < dest.Length0 && len <= dest.Length1
    requires |src| == k && forall j :: 0 <= j < k ==> len <= |src[j]|
    requires forall i :: 0 <= i < |m| ==> |m[i]| == k
    requires from == 32 * Slot(k, first, 0) && HaveTables(g[..], m, k, |m|, 0)
    modifies dest
    ensures Encoded(Row(dest, l), m[l], src, len)
    ensures forall i :: 0 <= i < dest.Length0 && i != l ==> Row(dest, i) == old(Row(dest, i))
  {
    hide HaveTables, Slot, At;
    for p := 0 to len
      invariant forall i, c :: 0 <= i < dest.Length0 && 0 <= c < dest.Length1 && i != l ==>
        dest[i, c] == old(dest[i, c])
      invariant forall c :: 0 <= c < p ==> dest[l, c] == Dot(m[l], At(src, c), k)
    {
      dest[l, p] := KernelByte(p, k, g, from, src, first, l, m);
    }
  }

  method KernelByte(p: nat, k: nat, g: array<byte>, from: nat, src: seq<seq<byte>>, first: nat, l: nat, ghost m: Mat)
    returns (s: byte)
    requires first <= l < |m| && |src| == k && forall j :: 0 <= j < k ==> p < |src[j]|
    requires forall i :: 0 <= i < |m| ==> |m[i]| == k
    requires from == 32 * Slot(k, first, 0) && HaveTables(g[..], m, k, |m|, 0)
    ensures s == Dot(m[l], At(src, p), k)
  {
    hide Add, Mul, NibbleTable, TableProduct;
    s := 0;
    for j := 0 to k
      invariant s == Dot(m[l], At(src, p), j)
    {
      var slot := (l - first) * k + j;
      assert from + 32 * slot == 32 * Slot(k, l, j);
      assert TableAt(g[..], Slot(k, l, j)) == NibbleTable(m[l][j]);
      TableProductCorrect(m[l][j], src[j][p]);
      s := Add(s, TableProduct(g[from + 32 * slot..from + 32 * slot + 32], src[j][p]));
    }
  }

  /** The plain encoder for short blocks. It reads the coefficient back from entry 1 of its table. */
  method EcEncodeDataBase(len: nat, srcs: nat, dests: nat, v: array<byte>,
      src: seq<seq<byte>>, dest: array2<byte>, ghost m: Mat)
    requires dests <= dest.Length0 && len <= dest.Length1 && |m| == dests
    requires |src| == srcs && forall j :: 0 <= j < srcs ==> len <= |src[j]|
    requires forall l :: 0 <= l < |m| ==> |m[l]| == srcs
    requires HaveTables(v[..], m, srcs, |m|, 0)
    modifies dest
    ensures forall l :: 0 <= l < dests ==> Encoded(Row(dest, l), m[l], src, len)
  {
    hide HaveTables, Slot, Encoded;
    for l := 0 to dests
      invariant forall i :: 0 <= i < l ==> Encoded(Row(dest, i), m[i], src, len)
    {
      BaseRow(len, srcs, v, src, dest, l, m);
    }
  }

  method BaseRow(len: nat, srcs: nat, v: array<byte>, src: seq<seq<byte>>, dest: array2<byte>, l: nat, ghost m: Mat)
    requires l < |m| && l < dest.Length0 && len <= dest.Length1
    requires |src| == srcs && forall j :: 0 <= j < srcs ==> len <= |src[j]|
    requires forall t :: 0 <= t < |m| ==> |m[t]| == srcs
    requires HaveTables(v[..], m, srcs, |m|, 0)
    modifies dest
    ensures Encoded(Row(dest, l), m[l], src, len)
    ensures forall i :: 0 <= i < dest.Length0 && i != l ==> Row(dest, i) == old(Row(dest, i))
  {
    hide HaveTables, Slot, At;
    for i := 0 to len
      invariant forall t, c :: 0 <= t < dest.Length0 && 0 <= c < dest.Length1 && t != l ==>
        dest[t, c] == old(dest[t, c])
      invariant forall c :: 0 <= c < i ==> dest[l, c] == Dot(m[l], At(src, c), srcs)
    {
      dest[l, i] := BaseByte(i, srcs, v, src, l, m);
    }
  }

  method BaseByte(i: nat, srcs: nat, v: array<byte>, src: seq<seq<byte>>, l: nat, ghost m: Mat) returns (s: byte)
    requires l < |m| && |src| == srcs && forall j :: 0 <= j < srcs ==> i < |src[j]|
    requires forall t :: 0 <= t < |m| ==> |m[t]| == srcs
    requires HaveTables(v[..], m, srcs, |m|, 0)
    ensures s == Dot(m[l], At(src, i), srcs)
  {
    hide Add, Mul, GfMul, At;
    s := 0;
    for j := 0 to srcs
      invariant s == Dot(m[l], At(src, i), j)
    {
      CoefficientBack(v[..], m, srcs, l, j);
      MulComm(src[j][i], m[l][j]);
      s := Add(s, GfMul(src[j][i], v[j * 32 + l * srcs * 32 + 1]));
    }
  }

  lemma CoefficientBack(v: seq<byte>, m: Mat, k: nat, l: nat, j: nat)
    requires l < |m| && j < k && forall t :: 0 <= t < |m| ==> |m[t]| == k
    requires HaveTables(v, m, k, |m|, 0)
    ensures 0 <= j * 32 + l * k * 32 + 1 < |v|
    ensures v[j * 32 + l * k * 32 + 1] == m[l][j]
  {
    hide Mul;
    var slot := Slot(k, l, j);
    assert TableAt(v, slot) == NibbleTable(m[l][j]);
    MulOne(m[l][j]);
    assert TableAt(v, slot)[1] == v[32 * slot + 1];
    assert j * 32 + l * k * 32 + 1 == 32 * slot + 1;
  }

  /** Short blocks byte by byte, long ones six rows at a time and the rest in one go. */
  method EcEncodeData(len: nat, k: nat, rows: nat, g: array<byte>,
      src: seq<seq<byte>>, dest: array2<byte>, ghost m: Mat)
    requires rows <= dest.Length0 && len <= dest.Length1 && |m| == rows && Encodable(k, rows, len)
    requires |src| == k && forall j :: 0 <= j < k ==> len <= |src[j]|
    requires forall l :: 0 <= l < |m| ==> |m[l]| == k
    requires HaveTables(g[..], m, k, |m|, 0)
    modifies dest
    ensures forall l :: 0 <= l < rows ==> Encoded(Row(dest, l), m[l], src, len)
  {
    hide HaveTables, Encoded;
    if len < 32 {
      EcEncodeDataBase(len, k, rows, g, src, dest, m);
      return;
    }
    var done, left, from := 0, rows, 0;
    while left >= 6
      invariant done + left == rows && from == 32 * Slot(k, done, 0)
      invariant forall l :: 0 <= l < done ==> Encoded(Row(dest, l), m[l], src, len)
    {
      DotProductKernel(6, len, k, g, from, src, dest, done, m);
      from := from + 6 * k * 32;
      done := done + 6;
      left := left - 6;
    }
    if left > 0 {
      DotProductKernel(left, len, k, g, from, src, dest, done, m);
    }
  }

  /** Encodes a matrix's rows over the data blocks (encode_data). */
  method EncodeData(len: nat, k: nat, m: Mat, src: seq<seq<byte>>) returns (coding: seq<seq<byte>>)
    requires Encodable(k, |m|, len)
    requires |src| == k && forall j :: 0 <= j < k ==> len <= |src[j]|
    requires forall l :: 0 <= l < |m| ==> |m[l]| == k
    ensures |coding| == |m|
    ensures forall l :: 0 <= l < |m| ==> |coding[l]| == len && Encoded(coding[l], m[l], src, len)
  {
    hide HaveTables, Encoded;
    var gTbls := new byte[32 * (|m| * k)];
    EcInitTables(k, m, gTbls);
    var dest := new byte[|m|, len];
    EcEncodeData(len, k, |m|, gTbls, src, dest, m);
    coding := [];
    for l := 0 to |m|
      invariant |coding| == l && forall i :: 0 <= i < l ==> coding[i] == Row(dest, i)
    {
      var row := seq(len, p requires 0 <= p < len reads dest => dest[l, p]);
      assert row == Row(dest, l);
      coding := coding + [row];
    }
  }
}
