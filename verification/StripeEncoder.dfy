/** The parities of a stripe, from all data blocks (encode_unilrc and its siblings) or from the first ones only
    (partial_encode_unilrc and its siblings). */
module StripeEncoder {
  import opened Arithmetic
  import opened Field
  import opened LinearAlgebra
  import opened GaussJordan
  import opened Generators
  import opened Encoder
  import opened ParityEquations
  import opened ProxyRecovery

  /** The data of a stripe of which only the first blocks were written. */
  function Padded(data: seq<seq<byte>>, k: nat, len: nat): (all: seq<seq<byte>>)
    requires |data| <= k
    ensures |all| == k
    ensures forall j :: 0 <= j < k ==> all[j] == if j < |data| then data[j] else Constant<byte>(len, 0)
  {
    seq(k, j requires 0 <= j < k => if j < |data| then data[j] else Constant<byte>(len, 0))
  }

  /** Entries beyond the first b count for nothing when they meet zeros. */
  lemma {:induction false} DotPadded(u: Vec, v: Vec, x: Vec, y: Vec, b: nat, n: nat)
    requires b <= n <= |u| && n <= |x| && b <= |v| && b <= |y|
    requires forall j :: 0 <= j < b ==> u[j] == v[j] && x[j] == y[j]
    requires forall j :: b <= j < n ==> x[j] == 0
    ensures Dot(u, x, n) == Dot(v, y, b)
    decreases n
  {
    hide Add, Mul;
    if n == b {
      DotSame(u, v, x, y, n);
    } else {
      DotPadded(u, v, x, y, b, n - 1);
      MulZero(u[n - 1]);
      AddZero(Dot(u, x, n - 1));
    }
  }

  lemma EncodedPadded(out: seq<byte>, row: Vec, data: seq<seq<byte>>, k: nat, len: nat)
    requires |data| <= k == |row| && forall j :: 0 <= j < |data| ==> |data[j]| == len
    requires Encoded(out, row[..|data|], data, len)
    ensures Encoded(out, row, Padded(data, k, len), len)
  {
    hide Dot;
    var all, b := Padded(data, k, len), |data|;
    forall p | 0 <= p < len ensures out[p] == Dot(row, At(all, p), k) {
      DotPadded(row, row[..b], At(all, p), At(data, p), b, k);
    }
  }

  /** An encoded block is determined by its row and the data. */
  lemma EncodedUnique(a: seq<byte>, b: seq<byte>, row: Vec, src: seq<seq<byte>>, len: nat)
    requires |row| == |src| && |a| == |b| == len && forall j :: 0 <= j < |src| ==> len <= |src[j]|
    requires Encoded(a, row, src, len) && Encoded(b, row, src, len)
    ensures a == b
  {
    hide Dot;
  }

  /** The blocks behind the data blocks are the parities of the data. */
  ghost predicate ParitiesOf(parity: seq<seq<byte>>, code: Code, k: nat, r: nat, z: nat, data: seq<seq<byte>>, len: nat)
    requires Shape(code, k, r, z) && |data| == k && forall j :: 0 <= j < k ==> |data[j]| == len
  {
    && |parity| == r + z
    && forall i :: 0 <= i < r + z ==>
         |parity[i]| == len && Encoded(parity[i], Generator(code, k, r, z)[k + i], data, len)
  }

  /** In terms of the bytes: at every position the parities are those that the code's equations ask for. */
  ghost predicate MeetEquations(parity: seq<seq<byte>>, code: Code, k: nat, r: nat, z: nat, data: seq<seq<byte>>, len: nat) {
    && |data| == k && |parity| == r + z
    && (forall j :: 0 <= j < k ==> |data[j]| == len) && (forall i :: 0 <= i < r + z ==> |parity[i]| == len)
    && forall p :: 0 <= p < len ==> Equations(code, k, r, z, At(data, p), At(parity, p))
  }

  /** Parity blocks are those of the generator matrix exactly if their bytes meet the equations. */
  lemma ParitiesMeet(parity: seq<seq<byte>>, code: Code, k: nat, r: nat, z: nat, data: seq<seq<byte>>, len: nat)
    requires Shape(code, k, r, z) && |data| == k && forall j :: 0 <= j < k ==> |data[j]| == len
    ensures ParitiesOf(parity, code, k, r, z, data, len) <==> MeetEquations(parity, code, k, r, z, data, len)
  {
    hide Equations, Dot, GeneratorRow, Shape;
    if ParitiesOf(parity, code, k, r, z, data, len) {
      forall p | 0 <= p < len ensures Equations(code, k, r, z, At(data, p), At(parity, p)) {
        ParityBytes(parity, code, k, r, z, data, len, p);
        GeneratorMeets(code, k, r, z, At(data, p), At(parity, p));
      }
    }
    if MeetEquations(parity, code, k, r, z, data, len) {
      forall i | 0 <= i < r + z ensures Encoded(parity[i], Generator(code, k, r, z)[k + i], data, len) {
        forall p | 0 <= p < len ensures parity[i][p] == Dot(Generator(code, k, r, z)[k + i], At(data, p), k) {
          var y := GeneratorBytes(code, k, r, z, At(data, p));
          GeneratorMeets(code, k, r, z, At(data, p), y);
          EquationsUnique(code, k, r, z, At(data, p), At(parity, p), y);
        }
      }
    }
  }

  /** The parities of the data bytes at one position. */
  function GeneratorBytes(code: Code, k: nat, r: nat, z: nat, x: Vec): (y: Vec)
    requires Shape(code, k, r, z) && |x| == k
    ensures |y| == r + z && forall i: nat :: i < r + z ==> y[i] == Dot(Generator(code, k, r, z)[k + i], x, k)
  {
    seq(r + z, i requires 0 <= i < r + z => Dot(Generator(code, k, r, z)[k + i], x, k))
  }

  lemma ParityBytes(parity: seq<seq<byte>>, code: Code, k: nat, r: nat, z: nat, data: seq<seq<byte>>, len: nat, p: nat)
    requires Shape(code, k, r, z) && |data| == k && forall j :: 0 <= j < k ==> |data[j]| == len
    requires ParitiesOf(parity, code, k, r, z, data, len) && p < len
    ensures |parity| == r + z && forall i :: 0 <= i < r + z ==> |parity[i]| == len
    ensures forall i: nat :: i < r + z ==> At(parity, p)[i] == Dot(Generator(code, k, r, z)[k + i], At(data, p), k)
  {
    hide Dot, GeneratorRow, Shape;
    forall i: nat | i < r + z
      ensures At(parity, p)[i] == Dot(Generator(code, k, r, z)[k + i], At(data, p), k)
    {
      assert Encoded(parity[i], Generator(code, k, r, z)[k + i], data, len);
    }
  }

  method EncodeStripe(code: Code, k: nat, r: nat, z: nat, data: seq<seq<byte>>, len: nat) returns (parity: seq<seq<byte>>)
    requires Shape(code, k, r, z) && |data| == k && forall j :: 0 <= j < k ==> |data[j]| == len
    ensures ParitiesOf(parity, code, k, r, z, data, len) && MeetEquations(parity, code, k, r, z, data, len)
  {
    hide MeetEquations, Encoded, GeneratorRow, Shape, Encodes, GlobalEntries;
    ShapeSizes(code, k, r, z);
    var matrix := GenMatrix(code, k, r, z);
    var rows := ParityRows(matrix, k, k, r + z);
    parity := EncodeData(len, k, rows, data);
    assert forall i :: 0 <= i < r + z ==> rows[i] == Row(matrix, k + i) == Generator(code, k, r, z)[k + i];
    ParitiesMeet(parity, code, k, r, z, data, len);
  }

  /** The first b entries of the parity rows (the memcpy into sub_matrix; all of them for a full encode). */
  method ParityRows(matrix: array2<byte>, k: nat, b: nat, count: nat) returns (rows: Mat)
    requires b <= k == matrix.Length1 && k + count <= matrix.Length0
    ensures |rows| == count && forall i :: 0 <= i < count ==> rows[i] == Row(matrix, k + i)[..b]
  {
    rows := [];
    for i := 0 to count
      invariant |rows| == i && forall l :: 0 <= l < i ==> rows[l] == Row(matrix, k + l)[..b]
    {
      var row := seq(b, j requires 0 <= j < b reads matrix => matrix[k + i, j]);
      assert row == Row(matrix, k + i)[..b];
      rows := rows + [row];
    }
  }

  /** Encoding only the first blocks gives the parities of the stripe whose other data blocks are zero. */
  method PartialEncode(code: Code, k: nat, r: nat, z: nat, data: seq<seq<byte>>, len: nat) returns (parity: seq<seq<byte>>)
    requires Shape(code, k, r, z) && |data| <= k && forall j :: 0 <= j < |data| ==> |data[j]| == len
    requires Encodable(|data|, r + z, len)
    ensures ParitiesOf(parity, code, k, r, z, Padded(data, k, len), len)
    ensures MeetEquations(parity, code, k, r, z, Padded(data, k, len), len)
  {
    hide MeetEquations, Encoded, GeneratorRow, Shape, Encodes, GlobalEntries;
    var matrix := GenMatrix(code, k, r, z);
    var rows := ParityRows(matrix, k, |data|, r + z);
    parity := EncodeData(len, |data|, rows, data);
    forall i | 0 <= i < r + z
      ensures |parity[i]| == len && Encoded(parity[i], Generator(code, k, r, z)[k + i], Padded(data, k, len), len)
    {
      assert Row(matrix, k + i) == Generator(code, k, r, z)[k + i];
      EncodedPadded(parity[i], Generator(code, k, r, z)[k + i], data, k, len);
    }
    ParitiesMeet(parity, code, k, r, z, Padded(data, k, len), len);
  }

  /** Both ways of encoding agree: a partial encode is the full encode with the other blocks zeroed. */
  lemma ParitiesUnique(a: seq<seq<byte>>, b: seq<seq<byte>>, code: Code, k: nat, r: nat, z: nat, data: seq<seq<byte>>,
      len: nat)
    requires Shape(code, k, r, z) && |data| == k && forall j :: 0 <= j < k ==> |data[j]| == len
    requires ParitiesOf(a, code, k, r, z, data, len) && ParitiesOf(b, code, k, r, z, data, len)
    ensures a == b
  {
    hide Encoded, GeneratorRow, Shape;
    forall i | 0 <= i < r + z ensures a[i] == b[i] {
      EncodedUnique(a[i], b[i], Generator(code, k, r, z)[k + i], data, len);
    }
  }

  lemma UnitEncodes(data: seq<seq<byte>>, k: nat, len: nat, i: nat)
    requires i < k == |data| && forall j :: 0 <= j < k ==> |data[j]| == len
    ensures Encoded(data[i], Unit(k, i), data, len)
  {
    hide Dot, Unit;
    forall p | 0 <= p < len ensures data[i][p] == Dot(Unit(k, i), At(data, p), k) {
      DotUnit(k, i, At(data, p));
    }
  }

  lemma DataRow(code: Code, k: nat, r: nat, z: nat, i: nat)
    requires Shape(code, k, r, z) && i < k
    ensures Generator(code, k, r, z)[i] == Unit(k, i)
  {
    hide Unit, LocalRow, Shape;
  }

  /** Data blocks and their parities make up a stripe as the repair methods expect it in storage. */
  lemma StripeStored(code: Code, k: nat, r: nat, z: nat, data: seq<seq<byte>>, parity: seq<seq<byte>>, len: nat)
    requires Shape(code, k, r, z) && |data| == k && forall j :: 0 <= j < k ==> |data[j]| == len
    requires ParitiesOf(parity, code, k, r, z, data, len)
    ensures Stores(data + parity, Generator(code, k, r, z), data, len)
  {
    hide Encoded, Shape, Unit, GeneratorRow;
    var stored, g := data + parity, Generator(code, k, r, z);
    forall i | 0 <= i < k + r + z ensures |stored[i]| == len && Encoded(stored[i], g[i], data, len) {
      if i < k {
        DataRow(code, k, r, z, i);
        UnitEncodes(data, k, len, i);
      } else {
        assert stored[i] == parity[i - k];
      }
    }
  }
}
