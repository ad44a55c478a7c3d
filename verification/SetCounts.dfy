/** How many blocks of each kind go to each placement group: what the client believes (get_data_block_num_per_group and
    its siblings) against what the coordinator's placement says. */
module SetCounts {
  import opened Arithmetic
  import opened Generators
  import opened Placement
  import opened ConfigCapacity
  import opened GroupClasses

  /** z | k, for UniLRC also z | r, and z | k + r for UniformLRC. */
  predicate SetShape(code: Code, k: nat, r: nat, z: nat) {
    && k > 0 && r > 0 && z > 0 && (if code.UniformLRC? then (k + r) % z == 0 else k % z == 0)
    && (code.UniLRC? ==> r % z == 0)
  }

  lemma SetShapeSizes(code: Code, k: nat, r: nat, z: nat)
    requires SetShape(code, k, r, z)
    ensures Shape(code, k, r, z) && (code.UniformLRC? ==> z <= k + r)
    ensures !code.UniformLRC? ==> k / z > 0 && (code.UniLRC? ==> r / z > 0)
  {
    if code.UniformLRC? {
      DivExact(1, k + r, z);
      MulMono(1, (k + r) / z, z);
    } else {
      DivExact(1, k, z);
      if code.UniLRC? {
        DivExact(1, r, z);
      }
    }
  }

  // ----- the coordinator's placement

  function SetTable(code: Code, k: nat, r: nat, z: nat): (t: seq<int>)
    requires SetShape(code, k, r, z)
    ensures |t| == k + r + z
  {
    SetShapeSizes(code, k, r, z);
    UniformComplete(k, r, z);
    match code
    case OptimalLRC => OptimalTable(k, r, z)
    case UniformLRC => UniformTable(k, r, z)
    case _ => UniAzureTable(code.UniLRC?, k, r, z)
  }

  function SetGroups(code: Code, k: nat, r: nat, z: nat): nat
    requires z > 0
  {
    match code
    case UniLRC => z
    case AzureLRC => z + 1
    case OptimalLRC => z * CeilDiv(k / z, r + 1) + 1
    case UniformLRC => FirstGroup(k, r, z, z)
  }

  lemma SetTableIs(code: Code, k: nat, r: nat, z: nat)
    requires SetShape(code, k, r, z)
    ensures !code.UniformLRC? ==> k / z > 0 && (code.UniLRC? ==> r / z > 0)
    ensures SetTable(code, k, r, z)
         == if code.OptimalLRC? then OptimalTable(k, r, z) else if code.UniformLRC? then UniformTable(k, r, z)
            else UniAzureTable(code.UniLRC?, k, r, z)
  {
    SetShapeSizes(code, k, r, z);
  }

  lemma SetConsecutive(code: Code, k: nat, r: nat, z: nat)
    requires SetShape(code, k, r, z)
    ensures Consecutive(SetTable(code, k, r, z), SetGroups(code, k, r, z))
  {
    hide SetTable, OptimalTable, UniAzureTable, UniformTable, Consecutive, CeilDiv, FirstGroup, OptimalGroup, UniAzureGroup;
    SetShapeSizes(code, k, r, z);
    SetTableIs(code, k, r, z);
    var t := SetTable(code, k, r, z);
    if code.OptimalLRC? {
      OptimalConsecutive(k, r, z, t);
    } else if code.UniformLRC? {
      UniformConsecutive(k, r, z);
    } else {
      UniAzureConsecutive(code.UniLRC?, k, r, z, t);
    }
  }

  lemma SplitOrder(i: nat, j: nat, n: nat, size: nat)
    requires size > 0 && i < j < n * size
    ensures i == i / size * size + i % size && j == j / size * size + j % size
    ensures j / size < n && i % size < size && j % size < size
    ensures i / size < j / size || (i / size == j / size && i % size < j % size)
  {
    DivBelow(j, size, n);
    DivMonotone(i, j, size);
  }

  lemma ChunkOrder(size: nat, w: nat, l: nat, o: nat, m: nat, p: nat)
    requires w > 0 && o < size && p < size && (l < m || (l == m && o < p))
    ensures o / w + l * CeilDiv(size, w) <= p / w + m * CeilDiv(size, w)
  {
    hide CeilDiv;
    if l == m {
      DivMonotone(o, p, w);
    } else {
      ChunkInRange(size, w, o);
      MulMono(l + 1, m, CeilDiv(size, w));
    }
  }

  /** Placement groups of data blocks never fall: chunk numbers within a local group, then the next local group. */
  lemma OptimalDataRising(k: nat, r: nat, z: nat, i: nat, j: nat)
    requires z > 0 && k > 0 && k % z == 0 && k / z > 0 && i < j < k
    ensures OptimalGroup(k, r, z, i) <= OptimalGroup(k, r, z, j)
  {
    hide *;
    var size := k / z;
    DivExact(1, k, z);
    SplitOrder(i, j, z, size);
    var l, o, m, p := i / size, i % size, j / size, j % size;
    OptimalDataGroup(k, r, z, l, o);
    OptimalDataGroup(k, r, z, m, p);
    ChunkOrder(size, r + 1, l, o, m, p);
  }

  lemma UniAzureRising(uni: bool, k: nat, r: nat, z: nat, i: nat, j: nat)
    requires z > 0 && k / z > 0 && (uni ==> r / z > 0) && i < j
    requires j < k || k <= i < j < k + r || k + r <= i
    ensures UniAzureGroup(uni, k, r, z, i) <= UniAzureGroup(uni, k, r, z, j)
  {
    if j < k {
      DivMonotone(i, j, k / z);
    } else if i < k + r && uni {
      DivMonotone(i - k, j - k, r / z);
    }
  }

  lemma OptimalParityRising(k: nat, r: nat, z: nat, i: nat, j: nat)
    requires z > 0 && k / z > 0 && i < j && (k <= i < j < k + r || k + r <= i)
    ensures OptimalGroup(k, r, z, i) <= OptimalGroup(k, r, z, j)
  {
    hide CeilDiv;
    if k + r <= i {
      MulMono(i - k - r + 1, j - k - r + 1, CeilDiv(k / z, r + 1));
    }
  }

  lemma {:induction false} UniformRising(k: nat, r: nat, z: nat, l: nat, i: nat, j: nat)
    requires z > 0 && l <= z && i < j < |UniformGroups(k, r, z, l)|
    ensures UniformGroups(k, r, z, l)[i] <= UniformGroups(k, r, z, l)[j]
    decreases l
  {
    hide FirstGroup, LocalSize, Chunks;
    var before, first, size := UniformGroups(k, r, z, l - 1), FirstGroup(k, r, z, l - 1), LocalSize(k, r, z, l - 1);
    assert UniformGroups(k, r, z, l) == before + Chunks(first, size, r + 1);
    hide UniformGroups;
    if j < |before| {
      UniformRising(k, r, z, l - 1, i, j);
    } else if i < |before| {
      UniformInRange(k, r, z, l - 1);
      assert before[i] < first <= Chunks(first, size, r + 1)[j - |before|];
    } else {
      DivMonotone(i - |before|, j - |before|, r + 1);
      assert Chunks(first, size, r + 1)[i - |before|] <= Chunks(first, size, r + 1)[j - |before|];
    }
  }

  lemma UniformTableRising(k: nat, r: nat, z: nat, i: nat, j: nat)
    requires z > 0 && i < j < k + r + z && (j < k + r || k + r <= i) && |UniformTable(k, r, z)| == k + r + z
    ensures UniformTable(k, r, z)[i] <= UniformTable(k, r, z)[j]
  {
    hide UniformGroups, FirstGroup;
    UniformComplete(k, r, z);
    if j < k + r {
      UniformRising(k, r, z, z, i, j);
    } else {
      FirstGroupMono(k, r, z, i - k - r + 1, j - k - r + 1);
    }
  }

  lemma SetRising(code: Code, k: nat, r: nat, z: nat)
    requires SetShape(code, k, r, z)
    ensures var t, g := SetTable(code, k, r, z), SetGroups(code, k, r, z);
      Rising(t, 0, k, g) && Rising(t, k, k + r, g) && Rising(t, k + r, k + r + z, g)
  {
    hide OptimalGroup, UniAzureGroup, UniformTable, CeilDiv, SetGroups, SetShape;
    SetShapeSizes(code, k, r, z);
    SetConsecutive(code, k, r, z);
    var t := SetTable(code, k, r, z);
    forall i, j | 0 <= i < j < k + r + z && (j < k || (k <= i && j < k + r) || k + r <= i) ensures t[i] <= t[j] {
      if code.UniLRC? || code.AzureLRC? {
        UniAzureRising(code.UniLRC?, k, r, z, i, j);
      } else if code.UniformLRC? {
        UniformTableRising(k, r, z, i, j);
      } else if j < k {
        OptimalDataRising(k, r, z, i, j);
      } else {
        OptimalParityRising(k, r, z, i, j);
      }
    }
  }

  // ----- the client's tables

  /** The client's number of placement groups per local group of OptimalLRC: one more than needed if r + 1 | k / z. */
  function ClientChunks(k: nat, r: nat, z: nat): nat
    requires z > 0
  {
    k / z / (r + 1) + 1
  }

  function ClientGroups(code: Code, k: nat, r: nat, z: nat): nat
    requires z > 0
  {
    match code
    case UniLRC => z
    case AzureLRC => z + 1
    case OptimalLRC => z * ClientChunks(k, r, z) + 1
    case UniformLRC => z
  }

  /** The client's numbers of data blocks, global and local parities in group i. */
  function ClientNums(code: Code, k: nat, r: nat, z: nat, i: nat): (nat, nat, nat)
    requires z > 0
  {
    match code
    case UniLRC => (k / z, r / z, 1)
    case AzureLRC => if i < z then (k / z, 0, 1) else (0, r, 0)
    case UniformLRC => if i < z - 1 then ((k + r) / z, 0, 1) else (0, r, 1)
    case OptimalLRC =>
      if i >= z * ClientChunks(k, r, z) then (0, r, 0)
      else if (i + 1) % ClientChunks(k, r, z) != 0 then (r + 1, 0, 0)
      else (k / z % (r + 1), 0, 1)
  }

  /** The numbers that the client's tables hold for each group. */
  ghost predicate ClientTables(d: seq<nat>, g: seq<nat>, l: seq<nat>, code: Code, k: nat, r: nat, z: nat)
    requires z > 0
  {
    && |d| == |g| == |l| == ClientGroups(code, k, r, z)
    && forall i :: 0 <= i < |d| ==> (d[i], g[i], l[i]) == ClientNums(code, k, r, z, i)
  }

  method GetDataBlockNumPerGroup(code: Code, k: nat, r: nat, z: nat) returns (num: seq<nat>)
    requires SetShape(code, k, r, z)
    ensures |num| == ClientGroups(code, k, r, z)
    ensures forall i :: 0 <= i < |num| ==> num[i] == ClientNums(code, k, r, z, i).0
  {
    num := [];
    if code.AzureLRC? {
      for i := 0 to z
        invariant |num| == i && forall j :: 0 <= j < i ==> num[j] == k / z
      {
        num := num + [k / z];
      }
      num := num + [0];
    } else if code.OptimalLRC? {
      var groupSize, size := r + 1, k / z;
      var perLocal := size / groupSize + 1;
      for i := 0 to z * perLocal
        invariant |num| == i && forall j :: 0 <= j < i ==> num[j] == ClientNums(code, k, r, z, j).0
      {
        num := num + [if (i + 1) % perLocal != 0 then groupSize else size % groupSize];
      }
      num := num + [0];
    } else if code.UniformLRC? {
      for i := 0 to z - 1
        invariant |num| == i && forall j :: 0 <= j < i ==> num[j] == (k + r) / z
      {
        num := num + [(k + r) / z];
      }
      num := num + [0];
    } else {
      for i := 0 to z
        invariant |num| == i && forall j :: 0 <= j < i ==> num[j] == k / z
      {
        num := num + [k / z];
      }
    }
  }

  method GetGlobalParityBlockNumPerGroup(code: Code, k: nat, r: nat, z: nat) returns (num: seq<nat>)
    requires SetShape(code, k, r, z)
    ensures |num| == ClientGroups(code, k, r, z)
    ensures forall i :: 0 <= i < |num| ==> num[i] == ClientNums(code, k, r, z, i).1
  {
    num := [];
    if code.UniLRC? {
      for i := 0 to z
        invariant |num| == i && forall j :: 0 <= j < i ==> num[j] == r / z
      {
        num := num + [r / z];
      }
    } else {
      var last := if code.AzureLRC? then z else if code.UniformLRC? then z - 1 else z * (k / z / (r + 1) + 1);
      for i := 0 to last
        invariant |num| == i && forall j :: 0 <= j < i ==> num[j] == 0
      {
        num := num + [0];
      }
      num := num + [r];
    }
  }

  method GetLocalParityBlockNumPerGroup(code: Code, k: nat, r: nat, z: nat) returns (num: seq<nat>)
    requires SetShape(code, k, r, z)
    ensures |num| == ClientGroups(code, k, r, z)
    ensures forall i :: 0 <= i < |num| ==> num[i] == ClientNums(code, k, r, z, i).2
  {
    num := [];
    if code.OptimalLRC? {
      var perLocal := k / z / (r + 1) + 1;
      for i := 0 to z * perLocal
        invariant |num| == i && forall j :: 0 <= j < i ==> num[j] == ClientNums(code, k, r, z, j).2
      {
        num := num + [if (i + 1) % perLocal != 0 then 0 else 1];
      }
      num := num + [0];
    } else {
      for i := 0 to z
        invariant |num| == i && forall j :: 0 <= j < i ==> num[j] == 1
      {
        num := num + [1];
      }
      if code.AzureLRC? {
        num := num + [0];
      }
    }
  }

  // ----- do they agree?

  /** The numbers that the placement gives group i. */
  function PlacedNums(code: Code, k: nat, r: nat, z: nat, i: nat): (nat, nat, nat)
    requires SetShape(code, k, r, z)
  {
    var t := SetTable(code, k, r, z);
    (|InClass(t, i, 0, k)|, |InClass(t, i, k, k + r)|, |InClass(t, i, k + r, k + r + z)|)
  }

  /** Exactly when the client's tables are those of the placement. */
  predicate TablesFit(code: Code, k: nat, r: nat, z: nat)
    requires z > 0
  {
    && (code.OptimalLRC? ==> k / z % (r + 1) != 0)
    && (code.UniformLRC? ==> (k + r) / z == r)
  }

  lemma UniAzureNums(code: Code, k: nat, r: nat, z: nat, c: nat)
    requires SetShape(code, k, r, z) && (code.UniLRC? || code.AzureLRC?) && c < SetGroups(code, k, r, z)
    ensures PlacedNums(code, k, r, z, c) == ClientNums(code, k, r, z, c)
  {
    hide Count, ChunkSize, InClass;
    SetShapeSizes(code, k, r, z);
    var t, uni := SetTable(code, k, r, z), code.UniLRC?;
    var a, b, d := Chunks(0, k, k / z), (if uni then Chunks(0, r, r / z) else Constant<int>(r, z)), Chunks(0, z, 1);
    assert t[0..k] == a && t[k..k + r] == b && t[k + r..k + r + z] == d;
    ClassCount(t, c, 0, k);
    ClassCount(t, c, k, k + r);
    ClassCount(t, c, k + r, k + r + z);
    CountChunks(0, k, k / z, c);
    CountChunks(0, z, 1, c);
    FullChunk(k, z, c);
    FullChunk(z, z, c);
    if uni {
      CountChunks(0, r, r / z, c);
      FullChunk(r, z, c);
    } else if c == z {
      CountConstant(r, z);
    } else {
      CountNone(b, c);
    }
  }

  /** OptimalLRC, group j of local group l: one chunk of the data, and the local parity in the last one. */
  lemma {:induction false} OptimalDataNum(size: nat, r: nat, n: nat, l: nat, j: nat)
    requires j < CeilDiv(size, r + 1)
    ensures Count(OptimalData(size, r, n), l * CeilDiv(size, r + 1) + j) == if l < n then ChunkSize(size, r + 1, j) else 0
    decreases n
  {
    hide Count, ChunkSize, CeilDiv;
    var per := CeilDiv(size, r + 1);
    var c := l * per + j;
    if n == 0 {
      CountNone([], c);
    } else {
      var first := (n - 1) * per;
      OptimalDataNum(size, r, n - 1, l, j);
      CountConcat(OptimalData(size, r, n - 1), Chunks(first, size, r + 1), c);
      CountChunks(first, size, r + 1, c);
      if l < n - 1 {
        PackBelow(l, n - 1, per, j);
      } else {
        MulMono(n - 1, l, per);
        if l > n - 1 {
          MulMono(n, l, per);
          assert n * per == first + per;
        }
        if c - first >= per {
          ChunkSizeAtMost(size, r + 1, c - first);
        }
      }
    }
  }

  lemma {:induction false} OptimalLocalNum(per: nat, n: nat, l: nat, j: nat)
    requires j < per
    ensures Count(OptimalLocals(per, n), l * per + j) == if l < n && j == per - 1 then 1 else 0
    decreases n
  {
    hide Count;
    if n == 0 {
      CountNone([], l * per + j);
    } else {
      OptimalLocalNum(per, n - 1, l, j);
      OneMore(OptimalLocals(per, n - 1), n * per - 1, l * per + j);
      LastOfLocal(per, n - 1, l, j);
    }
  }

  lemma OneMore(s: seq<int>, v: int, c: int)
    ensures Count(s + [v], c) == Count(s, c) + if v == c then 1 else 0
  {
    assert (s + [v])[..|s|] == s;
  }

  lemma LastOfLocal(per: nat, m: nat, l: nat, j: nat)
    requires j < per
    ensures (m + 1) * per - 1 == l * per + j <==> l == m && j == per - 1
  {
    if l < m {
      PackBelow(l, m, per, j);
    } else if l > m {
      MulMono(m + 1, l, per);
    }
  }

  /** The table of an OptimalLRC placement, class by class. */
  lemma OptimalClasses(k: nat, r: nat, z: nat)
    requires SetShape(OptimalLRC, k, r, z)
    ensures var t, per := SetTable(OptimalLRC, k, r, z), CeilDiv(k / z, r + 1);
      && t[0..k] == OptimalData(k / z, r, z) && t[k..k + r] == Constant<int>(r, z * per)
      && t[k + r..k + r + z] == OptimalLocals(per, z)
  {
    hide CeilDiv, OptimalData, OptimalLocals;
    SetShapeSizes(OptimalLRC, k, r, z);
    OptimalDataTable(k, r, z, z);
    DivExact(1, k, z);
    OptimalLocalsForm(CeilDiv(k / z, r + 1), z);
  }

  lemma OptimalNums(k: nat, r: nat, z: nat, l: nat, j: nat)
    requires SetShape(OptimalLRC, k, r, z) && l < z && j < CeilDiv(k / z, r + 1)
    ensures var per := CeilDiv(k / z, r + 1);
      PlacedNums(OptimalLRC, k, r, z, l * per + j)
      == (ChunkSize(k / z, r + 1, j), 0, if j == per - 1 then 1 else 0)
  {
    hide CeilDiv, OptimalData, OptimalLocals, ChunkSize, InClass, Count, SetTable;
    var t, per := SetTable(OptimalLRC, k, r, z), CeilDiv(k / z, r + 1);
    var c := l * per + j;
    OptimalClasses(k, r, z);
    ClassCount(t, c, 0, k);
    ClassCount(t, c, k, k + r);
    ClassCount(t, c, k + r, k + r + z);
    OptimalDataNum(k / z, r, z, l, j);
    OptimalLocalNum(per, z, l, j);
    PackBelow(l, z, per, j);
    CountNone(Constant<int>(r, z * per), c);
  }

  lemma OptimalLastNums(k: nat, r: nat, z: nat)
    requires SetShape(OptimalLRC, k, r, z)
    ensures PlacedNums(OptimalLRC, k, r, z, z * CeilDiv(k / z, r + 1)) == (0, r, 0)
  {
    hide CeilDiv, OptimalData, OptimalLocals, ChunkSize, InClass, Count, SetTable;
    var t, per := SetTable(OptimalLRC, k, r, z), CeilDiv(k / z, r + 1);
    var c := z * per;
    SetShapeSizes(OptimalLRC, k, r, z);
    CeilDivBelow(k / z, r + 1, 0);
    OptimalClasses(k, r, z);
    ClassCount(t, c, 0, k);
    ClassCount(t, c, k, k + r);
    ClassCount(t, c, k + r, k + r + z);
    OptimalDataNum(k / z, r, z, z, 0);
    OptimalLocalNum(per, z, z, 0);
    CountConstant(r, c);
  }

  /** Chunk sizes when the last chunk is a short one. */
  lemma ShortLast(size: nat, w: nat, j: nat)
    requires w > 0 && size % w != 0 && j <= size / w
    ensures CeilDiv(size, w) == size / w + 1
    ensures ChunkSize(size, w, j) == if j < size / w then w else size % w
  {
    var q, m := size / w, size % w;
    assert size == q * w + m;
    if j < q {
      MulMono(j + 1, q, w);
      assert (j + 1) * w == j * w + w;
    }
  }

  lemma ClientNumsAt(k: nat, r: nat, z: nat, l: nat, j: nat)
    requires z > 0 && l < z && j < ClientChunks(k, r, z)
    ensures var per := ClientChunks(k, r, z);
      && l * per + j < z * per
      && ClientNums(OptimalLRC, k, r, z, l * per + j)
         == if j < per - 1 then (r + 1, 0, 0) else (k / z % (r + 1), 0, 1)
  {
    hide ClientChunks;
    var per := ClientChunks(k, r, z);
    PackBelow(l, z, per, j);
    if j < per - 1 {
      DivModUnique(l * per + j + 1, per, l, j + 1);
    } else {
      assert l * per + j + 1 == (l + 1) * per + 0;
      DivModUnique(l * per + j + 1, per, l + 1, 0);
    }
  }

  lemma OptimalAgreesAt(k: nat, r: nat, z: nat, l: nat, j: nat)
    requires SetShape(OptimalLRC, k, r, z) && k / z % (r + 1) != 0 && l < z && j < CeilDiv(k / z, r + 1)
    ensures var c := l * CeilDiv(k / z, r + 1) + j;
      PlacedNums(OptimalLRC, k, r, z, c) == ClientNums(OptimalLRC, k, r, z, c)
  {
    hide PlacedNums, ClientNums, CeilDiv, ChunkSize;
    ShortLast(k / z, r + 1, 0);
    ShortLast(k / z, r + 1, j);
    OptimalNums(k, r, z, l, j);
    ClientNumsAt(k, r, z, l, j);
  }

  lemma LastAgrees(k: nat, r: nat, z: nat)
    requires SetShape(OptimalLRC, k, r, z) && k / z % (r + 1) != 0
    ensures ClientChunks(k, r, z) == CeilDiv(k / z, r + 1)
    ensures var c := z * CeilDiv(k / z, r + 1);
      PlacedNums(OptimalLRC, k, r, z, c) == ClientNums(OptimalLRC, k, r, z, c)
  {
    hide PlacedNums, CeilDiv, ChunkSize;
    ShortLast(k / z, r + 1, 0);
    OptimalLastNums(k, r, z);
  }

  lemma OptimalAgrees(k: nat, r: nat, z: nat, c: nat)
    requires SetShape(OptimalLRC, k, r, z) && k / z % (r + 1) != 0 && c < SetGroups(OptimalLRC, k, r, z)
    ensures PlacedNums(OptimalLRC, k, r, z, c) == ClientNums(OptimalLRC, k, r, z, c)
  {
    hide PlacedNums, ClientNums, CeilDiv;
    var per := CeilDiv(k / z, r + 1);
    LastAgrees(k, r, z);
    if c < z * per {
      PackedBack(c, z, per);
      OptimalAgreesAt(k, r, z, c / per, c % per);
    }
  }

  lemma PackedBack(c: nat, n: nat, w: nat)
    requires c < n * w
    ensures w > 0 && c / w < n && c % w < w && c == c / w * w + c % w
  {
    if w > 0 {
      DivBelow(c, w, n);
    }
  }

  // ----- UniformLRC

  /** Local groups that are not larger than r + 1 are one placement group each. */
  lemma {:induction false} UniformFlat(k: nat, r: nat, z: nat, m: nat, size: nat)
    requires z > 0 && m <= z && (k + r) % z == 0 && size == (k + r) / z && 0 < size <= r + 1
    ensures FirstGroup(k, r, z, m) == m && UniformGroups(k, r, z, m) == Chunks(0, m * size, size)
    decreases m
  {
    hide CeilDiv, LocalSize, Chunks;
    if m == 0 {
      assert Chunks(0, 0, size) == [];
    } else {
      UniformFlat(k, r, z, m - 1, size);
      CeilOne(size, r + 1);
      LocalSizeIs(k, r, z, m - 1);
      assert m * size == (m - 1) * size + size;
      NextChunk(m - 1, size, r + 1);
    }
  }

  lemma CeilOne(size: nat, w: nat)
    requires 0 < size <= w
    ensures CeilDiv(size, w) == 1
  {
    CeilDivBelow(size, w, 0);
    CeilDivBelow(size, w, 1);
  }

  lemma NextChunk(m: nat, size: nat, w: nat)
    requires 0 < size <= w
    ensures Chunks(0, m * size, size) + Chunks(m, size, w) == Chunks(0, m * size + size, size)
  {
    forall j | 0 <= j < size ensures Chunks(m, size, w)[j] == (m * size + j) / size {
      DivModUnique(j, w, 0, j);
      DivModUnique(m * size + j, size, m, j);
    }
  }

  /** The groups of a UniformLRC placement, class by class. */
  lemma UniformClasses(k: nat, r: nat, z: nat, size: nat, b: nat)
    requires SetShape(UniformLRC, k, r, z) && size == (k + r) / z && size <= r + 1 && b <= k + r
    ensures size > 0 && SetGroups(UniformLRC, k, r, z) == z
    ensures var t := SetTable(UniformLRC, k, r, z);
      t[0..b] == Chunks(0, b, size) && t[k + r..k + r + z] == Chunks(0, z, 1)
  {
    hide SetTable, UniformGroups, FirstGroup;
    SetShapeSizes(UniformLRC, k, r, z);
    SetTableIs(UniformLRC, k, r, z);
    UniformComplete(k, r, z);
    UniformFlat(k, r, z, z, size);
    DivExact(1, k + r, z);
    forall i | 0 <= i < z ensures UniformLocals(k, r, z, z)[i] == i {
      UniformFlat(k, r, z, i + 1, size);
    }
  }

  /** The blocks of placement group c when the first b data blocks are written. */
  lemma UniformNums(k: nat, r: nat, z: nat, size: nat, b: nat, c: nat)
    requires SetShape(UniformLRC, k, r, z) && size == (k + r) / z && size <= r + 1 && b <= k && c < z
    ensures ChunkSize(k, size, c) <= size
    ensures var t := SetTable(UniformLRC, k, r, z);
      && |InClass(t, c, 0, b)| == ChunkSize(b, size, c) && |InClass(t, c, k, k + r)| == size - ChunkSize(k, size, c)
      && |InClass(t, c, k + r, k + r + z)| == 1
  {
    hide SetTable, Count, ChunkSize, InClass, SetShape, Chunks;
    var t := SetTable(UniformLRC, k, r, z);
    UniformClasses(k, r, z, size, b);
    UniformClasses(k, r, z, size, k);
    UniformClasses(k, r, z, size, k + r);
    ClassCount(t, c, 0, b);
    ClassCount(t, c, 0, k);
    ClassCount(t, c, 0, k + r);
    ClassSplit(t, c, 0, k, k + r);
    ClassCount(t, c, k + r, k + r + z);
    CountChunks(0, b, size, c);
    CountChunks(0, k, size, c);
    CountChunks(0, k + r, size, c);
    CountChunks(0, z, 1, c);
    UniformFull(k, r, z, c);
  }

  lemma UniformFull(k: nat, r: nat, z: nat, c: nat)
    requires SetShape(UniformLRC, k, r, z) && c < z
    ensures ChunkSize(k + r, (k + r) / z, c) == (k + r) / z && ChunkSize(z, 1, c) == 1
  {
    FullChunk(k + r, z, c);
    FullChunk(z, z, c);
  }

  /** How many data blocks are in the local groups before the last one, and in the last one. */
  lemma UniformData(k: nat, r: nat, z: nat, size: nat, c: nat)
    requires SetShape(UniformLRC, k, r, z) && size == (k + r) / z && c < z
    ensures k == (z - 1) * size + size - r
    ensures ChunkSize(k, size, z - 1) == if size < r then 0 else size - r
    ensures size >= r && c < z - 1 ==> ChunkSize(k, size, c) == size
  {
    DivExact(1, k + r, z);
    assert z * size == (z - 1) * size + size;
    if c < z - 1 {
      MulMono(c + 1, z - 1, size);
      assert (c + 1) * size == c * size + size;
    }
  }

  lemma UniformAgrees(k: nat, r: nat, z: nat, c: nat)
    requires SetShape(UniformLRC, k, r, z) && (k + r) / z == r && c < z
    ensures PlacedNums(UniformLRC, k, r, z, c) == ClientNums(UniformLRC, k, r, z, c)
  {
    hide SetTable, ChunkSize, InClass, SetShape;
    UniformNums(k, r, z, r, k, c);
    UniformData(k, r, z, r, c);
  }

  /** More placement groups than the client's tables have entries. */
  lemma UniformMany(k: nat, r: nat, z: nat)
    requires SetShape(UniformLRC, k, r, z) && (k + r) / z > r + 1
    ensures SetGroups(UniformLRC, k, r, z) >= 2 * z
  {
    hide CeilDiv, FirstGroup;
    UniformGroupNumber(k, r, z, z);
    CeilDivBelow((k + r) / z, r + 1, 1);
    MulMono(2, CeilDiv((k + r) / z, r + 1), z);
  }

  /** Client and coordinator agree on every group, if the tables fit. */
  lemma NumsAgree(code: Code, k: nat, r: nat, z: nat)
    requires SetShape(code, k, r, z) && TablesFit(code, k, r, z)
    ensures ClientGroups(code, k, r, z) == SetGroups(code, k, r, z)
    ensures forall c: nat :: c < SetGroups(code, k, r, z) ==> PlacedNums(code, k, r, z, c) == ClientNums(code, k, r, z, c)
  {
    hide PlacedNums, ClientNums, CeilDiv, FirstGroup;
    if code.UniformLRC? {
      UniformClasses(k, r, z, r, k);
      forall c: nat | c < z ensures PlacedNums(code, k, r, z, c) == ClientNums(code, k, r, z, c) {
        UniformAgrees(k, r, z, c);
      }
    } else if code.OptimalLRC? {
      ShortLast(k / z, r + 1, 0);
      forall c: nat | c < SetGroups(code, k, r, z) ensures PlacedNums(code, k, r, z, c) == ClientNums(code, k, r, z, c) {
        OptimalAgrees(k, r, z, c);
      }
    } else {
      forall c: nat | c < SetGroups(code, k, r, z) ensures PlacedNums(code, k, r, z, c) == ClientNums(code, k, r, z, c) {
        UniAzureNums(code, k, r, z, c);
      }
    }
  }

  lemma WholeChunks(size: nat, w: nat)
    requires w > 0 && size > 0 && size % w == 0
    ensures CeilDiv(size, w) == size / w > 0 && ChunkSize(size, w, size / w - 1) == w
  {
    var q := size / w;
    assert size == q * w;
    assert (q - 1) * w == q * w - w;
  }

  /** For OptimalLRC they otherwise disagree about the size of the group that holds the first local parity. */
  lemma OptimalDisagrees(k: nat, r: nat, z: nat) returns (c: nat)
    requires SetShape(OptimalLRC, k, r, z) && k / z % (r + 1) == 0
    ensures c < SetGroups(OptimalLRC, k, r, z) && c < ClientGroups(OptimalLRC, k, r, z)
    ensures ClientNums(OptimalLRC, k, r, z, c) == (r + 1, 0, 0)
    ensures PlacedNums(OptimalLRC, k, r, z, c) == (r + 1, 0, 1)
  {
    hide PlacedNums, ClientNums, CeilDiv, ChunkSize;
    SetShapeSizes(OptimalLRC, k, r, z);
    WholeChunks(k / z, r + 1);
    c := CeilDiv(k / z, r + 1) - 1;
    OptimalNums(k, r, z, 0, c);
    ClientNumsAt(k, r, z, 0, c);
    MulMono(1, z, CeilDiv(k / z, r + 1));
  }

  function Total(nums: (nat, nat, nat)): nat {
    nums.0 + nums.1 + nums.2
  }

  /** Without a fit the coordinator has a group that the client does not know, or that has another size for the client. */
  lemma NumsDisagree(code: Code, k: nat, r: nat, z: nat) returns (c: nat)
    requires SetShape(code, k, r, z) && !TablesFit(code, k, r, z)
    ensures c < SetGroups(code, k, r, z)
    ensures c < ClientGroups(code, k, r, z) ==> Total(PlacedNums(code, k, r, z, c)) != Total(ClientNums(code, k, r, z, c))
  {
    hide PlacedNums, FirstGroup;
    if code.OptimalLRC? {
      c := OptimalDisagrees(k, r, z);
    } else if (k + r) / z > r + 1 {
      UniformMany(k, r, z);
      c := z;
    } else {
      c := z - 1;
      UniformClasses(k, r, z, (k + r) / z, k);
      LastUniform(k, r, z);
    }
  }

  /** The last placement group of UniformLRC has a local group and its parity. */
  lemma LastUniform(k: nat, r: nat, z: nat)
    requires SetShape(UniformLRC, k, r, z) && z > 0 && (k + r) / z <= r + 1
    ensures Total(PlacedNums(UniformLRC, k, r, z, z - 1)) == (k + r) / z + 1
  {
    hide SetTable, ChunkSize, InClass, SetShape;
    UniformNums(k, r, z, (k + r) / z, k, z - 1);
  }
}
