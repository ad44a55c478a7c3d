/** A datanode's block files: data blocks grow at the end, parity blocks are logs of serialized slices until a merge
    XORs the slices into one block. */
module ParityLog {
  import opened Field
  import opened Cauchy
  import opened DecodePlanner

  // ----- 32-bit integers in files

  const INT_LIMIT := 0x8000_0000

  predicate IsInt(v: int) { -INT_LIMIT <= v < INT_LIMIT }

  function Word(v: int): nat
    requires IsInt(v)
  {
    if v < 0 then v + 2 * INT_LIMIT else v
  }

  function IntBytes(v: int): (f: seq<byte>)
    requires IsInt(v)
    ensures |f| == 4
  {
    var w := Word(v);
    var w1 := w / 0x100;
    var w2 := w1 / 0x100;
    [Byte(w), Byte(w1), Byte(w2), Byte(w2 / 0x100)]
  }

  function Value(b: byte): (n: nat)
    ensures n < 0x100
  {
    b as int
  }

  function ReadInt(f: seq<byte>): (v: int)
    requires |f| == 4
    ensures IsInt(v)
  {
    var w := Value(f[0]) + Value(f[1]) * 0x100 + Value(f[2]) * 0x1_0000 + Value(f[3]) * 0x100_0000;
    if w >= INT_LIMIT then w - 2 * INT_LIMIT else w
  }

  lemma ByteValue(n: nat)
    ensures Value(Byte(n)) == n % 0x100
  {
    hide *;
    ByteOfRest(n);
    ByteBack(n % 0x100);
    ValueIs(Byte(n % 0x100));
  }

  lemma ValueIs(b: byte)
    ensures Value(b) == b as int
  {
  }

  lemma ByteOfRest(n: nat)
    ensures 0 <= n % 0x100 < 0x100 && Byte(n) == Byte(n % 0x100)
  {
    assert n % 0x100 % 0x100 == n % 0x100;
  }

  lemma FourDigits(w: nat)
    requires w < 0x1_0000_0000
    ensures var w1 := w / 0x100; var w2 := w1 / 0x100; var w3 := w2 / 0x100;
      w == w % 0x100 + w1 % 0x100 * 0x100 + w2 % 0x100 * 0x1_0000 + w3 % 0x100 * 0x100_0000
  {
    var w1 := w / 0x100;
    var w2 := w1 / 0x100;
    var w3 := w2 / 0x100;
    assert w == w1 * 0x100 + w % 0x100;
    assert w1 == w2 * 0x100 + w1 % 0x100;
    assert w2 == w3 * 0x100 + w2 % 0x100;
    assert w3 % 0x100 == w3;
  }

  lemma IntRoundTrip(v: int)
    requires IsInt(v)
    ensures ReadInt(IntBytes(v)) == v
  {
    hide Byte, Value;
    var w := Word(v);
    var w1 := w / 0x100;
    var w2 := w1 / 0x100;
    ByteValue(w);
    ByteValue(w1);
    ByteValue(w2);
    ByteValue(w2 / 0x100);
    FourDigits(w);
  }

  // ----- the log format

  datatype LoggedSlice = LoggedSlice(offset: int, data: seq<byte>)

  predicate Writable(s: LoggedSlice) {
    IsInt(s.offset) && IsInt(|s.data|)
  }

  function Record(s: LoggedSlice): seq<byte>
    requires Writable(s)
  {
    IntBytes(s.offset) + IntBytes(|s.data|) + s.data
  }

  /** The 32 bits of v, lowest byte first. */
  ghost predicate LittleEndian(f: seq<byte>, v: int) {
    var w := v % 0x1_0000_0000;
    && |f| == 4 && Value(f[0]) == w % 0x100 && Value(f[1]) == w / 0x100 % 0x100
    && Value(f[2]) == w / 0x1_0000 % 0x100 && Value(f[3]) == w / 0x100_0000
  }

  lemma IntBytesAre(v: int)
    requires IsInt(v)
    ensures LittleEndian(IntBytes(v), v)
  {
    hide Byte, Value;
    var w := Word(v);
    assert w == v % 0x1_0000_0000;
    ByteValue(w);
    ByteValue(w / 0x100);
    ByteValue(w / 0x100 / 0x100);
    ByteValue(w / 0x100 / 0x100 / 0x100);
    assert w / 0x100 / 0x100 == w / 0x1_0000 && w / 0x100 / 0x100 / 0x100 == w / 0x100_0000 < 0x100;
  }

  /** A record is the offset, the size and the bytes of the slice. */
  lemma RecordLayout(s: LoggedSlice)
    requires Writable(s)
    ensures var f := Record(s);
      |f| == 8 + |s.data| && LittleEndian(f[..4], s.offset) && LittleEndian(f[4..8], |s.data|) && f[8..] == s.data
  {
    hide IntBytes, LittleEndian;
    IntBytesAre(s.offset);
    IntBytesAre(|s.data|);
    var f := Record(s);
    assert f[..4] == IntBytes(s.offset) && f[4..8] == IntBytes(|s.data|);
  }

  ghost predicate AllWritable(log: seq<LoggedSlice>) {
    forall i :: 0 <= i < |log| ==> Writable(log[i])
  }

  function SerializedAll(log: seq<LoggedSlice>): seq<byte>
    requires forall i :: 0 <= i < |log| ==> Writable(log[i])
  {
    if log == [] then [] else Record(log[0]) + SerializedAll(log[1..])
  }

  lemma {:induction false} SerializedPush(log: seq<LoggedSlice>, s: LoggedSlice)
    requires AllWritable(log) && Writable(s)
    ensures SerializedAll(log + [s]) == SerializedAll(log) + Record(s)
  {
    hide Record;
    if log == [] {
      assert [s][1..] == [];
    } else {
      assert (log + [s])[1..] == log[1..] + [s];
      SerializedPush(log[1..], s);
    }
  }

  function Prepend(found: seq<LoggedSlice>, rest: Option<seq<LoggedSlice>>): Option<seq<LoggedSlice>> {
    match rest
    case None => None
    case Some(r) => Some(found + r)
  }

  /** What the reading loop finds in a file. A truncated record or a negative size, where the source
      goes on with garbage, is None. */
  function Parsed(f: seq<byte>): Option<seq<LoggedSlice>>
    decreases |f|
  {
    if f == [] then Some([])
    else if |f| < 8 || ReadInt(f[4..8]) < 0 || |f| < 8 + ReadInt(f[4..8]) then None
    else
      var size := ReadInt(f[4..8]);
      Prepend([LoggedSlice(ReadInt(f[..4]), f[8..8 + size])], Parsed(f[8 + size..]))
  }

  lemma ParsedRecord(s: LoggedSlice, f: seq<byte>)
    requires Writable(s) && Parsed(f).Some?
    ensures Parsed(Record(s) + f) == Some([s] + Parsed(f).value)
  {
    hide IntBytes, ReadInt;
    var r := Record(s) + f;
    IntRoundTrip(s.offset);
    IntRoundTrip(|s.data|);
    assert r[..4] == IntBytes(s.offset) && r[4..8] == IntBytes(|s.data|);
    assert r[8..8 + |s.data|] == s.data && r[8 + |s.data|..] == f;
  }

  lemma NothingParsed()
    ensures Parsed([]) == Some([])
  {
  }

  /** Reading back what was written gives the slices, in order. */
  lemma {:induction false} ParsedSerialized(log: seq<LoggedSlice>)
    requires AllWritable(log)
    ensures Parsed(SerializedAll(log)) == Some(log)
  {
    hide Record, Parsed;
    if log == [] {
      NothingParsed();
    } else {
      ParsedSerialized(log[1..]);
      ParsedRecord(log[0], SerializedAll(log[1..]));
      assert log == [log[0]] + log[1..];
    }
  }

  lemma PrependStep(found: seq<LoggedSlice>, s: LoggedSlice, rest: Option<seq<LoggedSlice>>)
    ensures Prepend(found, Prepend([s], rest)) == Prepend(found + [s], rest)
    ensures Prepend([], rest) == rest
  {
    if rest.Some? {
      assert found + ([s] + rest.value) == found + [s] + rest.value;
      assert [] + rest.value == rest.value;
    }
  }

  method Deserialize(f: seq<byte>) returns (slices: Option<seq<LoggedSlice>>)
    ensures slices == Parsed(f)
  {
    hide ReadInt;
    var found: seq<LoggedSlice> := [];
    var pos := 0;
    assert f[0..] == f;
    PrependStep(found, LoggedSlice(0, []), Parsed(f));
    while pos < |f|
      invariant 0 <= pos <= |f|
      invariant Parsed(f) == Prepend(found, Parsed(f[pos..]))
      decreases |f| - pos
    {
      ghost var rest := f[pos..];
      if |f| - pos < 8 {
        return None;
      }
      var offset, size := ReadInt(f[pos..pos + 4]), ReadInt(f[pos + 4..pos + 8]);
      assert rest[..4] == f[pos..pos + 4] && rest[4..8] == f[pos + 4..pos + 8];
      if size < 0 || |f| - pos - 8 < size {
        return None;
      }
      assert rest[8..8 + size] == f[pos + 8..pos + 8 + size] && rest[8 + size..] == f[pos + 8 + size..];
      PrependStep(found, LoggedSlice(offset, f[pos + 8..pos + 8 + size]), Parsed(f[pos + 8 + size..]));
      found := found + [LoggedSlice(offset, f[pos + 8..pos + 8 + size])];
      pos := pos + 8 + size;
    }
    assert f[pos..] == [] && found + [] == found;
    slices := Some(found);
  }

  // ----- merging

  /** What a slice contributes to byte x of the block. */
  function SliceByte(s: LoggedSlice, x: int): byte {
    if s.offset <= x < s.offset + |s.data| then s.data[x - s.offset] else 0
  }

  function MergedByte(log: seq<LoggedSlice>, x: int): byte {
    if log == [] then 0 else Add(MergedByte(log[..|log| - 1], x), SliceByte(log[|log| - 1], x))
  }

  predicate WithinBlock(s: LoggedSlice, blockSize: nat) {
    s.data == [] || (0 <= s.offset && s.offset + |s.data| <= blockSize)
  }

  lemma NothingMerged(slices: seq<LoggedSlice>)
    ensures forall x :: MergedByte(slices[..0], x) == 0
  {
  }

  lemma NextMerged(slices: seq<LoggedSlice>, l: nat)
    requires l < |slices|
    ensures forall x :: MergedByte(slices[..l + 1], x) == Add(MergedByte(slices[..l], x), SliceByte(slices[l], x))
  {
    hide Add, SliceByte;
    assert slices[..l + 1][..l] == slices[..l];
  }

  lemma MergedOne(e: LoggedSlice, x: int)
    ensures MergedByte([e], x) == SliceByte(e, x)
  {
    hide Add, SliceByte;
    assert [e][..0] == [];
    AddZero(SliceByte(e, x));
  }

  /** XORs the slices into a block of zeros. A slice that leaves the block, where the source aborts, gives false. */
  method MergeSlices(slices: seq<LoggedSlice>, mergedBuf: array<byte>) returns (ok: bool)
    modifies mergedBuf
    ensures ok <==> forall i :: 0 <= i < |slices| ==> WithinBlock(slices[i], mergedBuf.Length)
    ensures ok ==> forall x :: 0 <= x < mergedBuf.Length ==> mergedBuf[x] == MergedByte(slices, x)
  {
    hide Add, SliceByte, MergedByte;
    for x := 0 to mergedBuf.Length
      invariant forall y :: 0 <= y < x ==> mergedBuf[y] == 0
    {
      mergedBuf[x] := 0;
    }
    NothingMerged(slices);
    for l := 0 to |slices|
      invariant forall i :: 0 <= i < l ==> WithinBlock(slices[i], mergedBuf.Length)
      invariant forall x :: 0 <= x < mergedBuf.Length ==> mergedBuf[x] == MergedByte(slices[..l], x)
    {
      if !WithinBlock(slices[l], mergedBuf.Length) {
        return false;
      }
      NextMerged(slices, l);
      XorSliceInto(slices[l], mergedBuf);
    }
    assert slices[..|slices|] == slices;
    ok := true;
  }

  method XorSliceInto(s: LoggedSlice, mergedBuf: array<byte>)
    requires WithinBlock(s, mergedBuf.Length)
    modifies mergedBuf
    ensures forall x :: 0 <= x < mergedBuf.Length ==> mergedBuf[x] == Add(old(mergedBuf[x]), SliceByte(s, x))
  {
    hide Add;
    forall x | 0 <= x < mergedBuf.Length ensures Add(mergedBuf[x], 0) == mergedBuf[x] {
      AddZero(mergedBuf[x]);
    }
    for i := 0 to |s.data|
      invariant forall x :: 0 <= x < mergedBuf.Length ==>
        mergedBuf[x] == Add(old(mergedBuf[x]), if x < s.offset + i then SliceByte(s, x) else 0)
    {
      mergedBuf[s.offset + i] := Add(mergedBuf[s.offset + i], s.data[i]);
    }
  }

  lemma {:induction false} MergedConcat(a: seq<LoggedSlice>, b: seq<LoggedSlice>, x: int)
    ensures MergedByte(a + b, x) == Add(MergedByte(a, x), MergedByte(b, x))
  {
    hide Add, SliceByte;
    if b == [] {
      assert a + b == a;
      AddZero(MergedByte(a, x));
    } else {
      var n := |b| - 1;
      MergedConcat(a, b[..n], x);
      assert (a + b)[..|a + b| - 1] == a + b[..n];
      AddAssoc(MergedByte(a, x), MergedByte(b[..n], x), SliceByte(b[n], x));
    }
  }

  /** Taking a slice out of the log takes its contribution out of the block. */
  lemma MergedWithout(log: seq<LoggedSlice>, i: nat, x: int)
    requires i < |log|
    ensures MergedByte(log, x) == Add(MergedByte(log[..i] + log[i + 1..], x), SliceByte(log[i], x))
  {
    hide Add, SliceByte, MergedByte;
    var a, e, b := log[..i], log[i], log[i + 1..];
    assert log == a + [e] + b;
    MergedConcat(a + [e], b, x);
    MergedConcat(a, [e], x);
    MergedConcat(a, b, x);
    MergedOne(e, x);
    var m, s, n := MergedByte(a, x), SliceByte(e, x), MergedByte(b, x);
    AddAssoc(m, s, n);
    AddComm(s, n);
    AddAssoc(m, n, s);
  }

  /** The order of the slices in the log does not matter. */
  lemma {:induction false} MergedPermuted(a: seq<LoggedSlice>, b: seq<LoggedSlice>, x: int)
    requires multiset(a) == multiset(b)
    ensures MergedByte(a, x) == MergedByte(b, x)
    decreases |a|
  {
    hide Add, SliceByte, MergedByte;
    if a == [] {
      assert |multiset(b)| == |b|;
    } else {
      var n := |a| - 1;
      var e := a[n];
      assert a == a[..n] + [e];
      assert e in multiset(a);
      assert e in multiset(b);
      var j :| 0 <= j < |b| && b[j] == e;
      assert b == b[..j] + [e] + b[j + 1..];
      assert multiset(a[..n]) == multiset(a) - multiset{e};
      assert multiset(b[..j] + b[j + 1..]) == multiset(b) - multiset{e};
      MergedPermuted(a[..n], b[..j] + b[j + 1..], x);
      MergedWithout(a, n, x);
      MergedWithout(b, j, x);
      assert a[..n] + a[n + 1..] == a[..n];
    }
  }

  /** The file is a complete log whose slices stay within the block. */
  ghost predicate Mergeable(f: seq<byte>, blockSize: nat) {
    Parsed(f).Some? && forall i :: 0 <= i < |Parsed(f).value| ==> WithinBlock(Parsed(f).value[i], blockSize)
  }

  // ----- block files

  /** The files of the nodes that hold one stripe, by block. */
  class Storage {
    var files: map<nat, seq<byte>>

    constructor ()
      ensures files == map[]
    {
      files := map[];
    }

    function Content(block: nat): seq<byte>
      reads this
    {
      if block in files then files[block] else []
    }

    /** The data block handler. It aborts if a slice for offset 0 finds a file. */
    method AppendData(block: nat, offset: nat, buf: seq<byte>) returns (ok: bool)
      modifies this
      ensures ok == !(offset == 0 && block in old(files))
      ensures files == if ok then old(files)[block := old(Content(block)) + buf] else old(files)
    {
      if offset == 0 && block in files {
        return false;
      }
      files := files[block := Content(block) + buf];
      ok := true;
    }

    /** The parity block handler: a record at the end of the log, or raw bytes. */
    method AppendParity(block: nat, slice: LoggedSlice, isSerialized: bool)
      requires Writable(slice)
      modifies this
      ensures files == old(files)[block := old(Content(block)) + if isSerialized then Record(slice) else slice.data]
    {
      if slice.offset == 0 && block !in files {
        files := files[block := []];
      }
      if isSerialized {
        files := files[block := Content(block) + Record(slice)];
      } else {
        files := files[block := Content(block) + slice.data];
      }
    }

    /** Replaces a log by the block that its slices add up to. The log is emptied before the slices are checked. */
    method MergeParity(block: nat, blockSize: nat) returns (ok: bool)
      modifies this
      ensures ok <==> block in old(files) && Mergeable(old(files)[block], blockSize)
      ensures ok ==> block in files && files == old(files)[block := files[block]] && |files[block]| == blockSize
      ensures ok ==> forall x :: 0 <= x < blockSize ==> files[block][x] == MergedByte(Parsed(old(files)[block]).value, x)
      ensures !ok && block in old(files) && Parsed(old(files)[block]).Some? ==> files == old(files)[block := []]
      ensures !ok && (block !in old(files) || Parsed(old(files)[block]).None?) ==> files == old(files)
    {
      if block !in files {
        return false;
      }
      var slices := Deserialize(files[block]);
      if slices.None? {
        return false;
      }
      files := files[block := []];
      var mergedBuf := new byte[blockSize];
      ok := MergeSlices(slices.value, mergedBuf);
      if ok {
        files := files[block := mergedBuf[..]];
      }
    }
  }
}
