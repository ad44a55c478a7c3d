/** Recovering several blocks with the help of any number of proxies: each one combines the source blocks it
    can reach (partialDecoding) and the destination XORs the payloads (multipleRecovery). */
module ProxyRecovery {
  import opened Arithmetic
  import opened Field
  import opened LinearAlgebra
  import opened Independence
  import opened DecodePlanner
  import opened Encoder
  import opened Aggregation

  /** Every stored block is the product of its generator row with the data. */
  ghost predicate Stores(stored: seq<seq<byte>>, gen: Mat, data: seq<seq<byte>>, len: nat) {
    && |stored| == |gen|
    && (forall j :: 0 <= j < |data| ==> len <= |data[j]|)
    && forall i :: 0 <= i < |gen| ==>
         |gen[i]| == |data| && |stored[i]| == len && Encoded(stored[i], gen[i], data, len)
  }

  // ----- what a proxy sends

  function Join(blocks: seq<seq<byte>>): seq<byte> {
    if blocks == [] then [] else Join(blocks[..|blocks| - 1]) + blocks[|blocks| - 1]
  }

  lemma {:induction false} JoinAt(blocks: seq<seq<byte>>, len: nat, b: nat, t: nat)
    requires b < |blocks| && t < len && forall i :: 0 <= i < |blocks| ==> |blocks[i]| == len
    ensures |Join(blocks)| == |blocks| * len && b * len + t < |blocks| * len
    ensures Join(blocks)[b * len + t] == blocks[b][t]
    decreases |blocks|
  {
    var n := |blocks| - 1;
    JoinLength(blocks[..n], len);
    assert n * len + len == (n + 1) * len;
    if b == n {
    } else {
      MulMono(b + 1, n, len);
      JoinAt(blocks[..n], len, b, t);
    }
  }

  lemma {:induction false} JoinLength(blocks: seq<seq<byte>>, len: nat)
    requires forall i :: 0 <= i < |blocks| ==> |blocks[i]| == len
    ensures |Join(blocks)| == |blocks| * len
    decreases |blocks|
  {
    if blocks != [] {
      var n := |blocks| - 1;
      JoinLength(blocks[..n], len);
      assert n * len + len == (n + 1) * len;
    }
  }

  /** factors[t] are the factors of failed block t for the source blocks at hand. */
  method PartialDecoding(len: nat, sources: seq<seq<byte>>, factors: seq<Vec>) returns (payload: seq<byte>)
    requires Encodable(|sources|, |factors|, len) && forall j :: 0 <= j < |sources| ==> |sources[j]| == len
    requires forall t :: 0 <= t < |factors| ==> |factors[t]| == |sources|
    ensures |payload| == |factors| * len
    ensures forall t, p :: 0 <= t < |factors| && 0 <= p < len ==>
      PayloadByte(payload, len, t, p) == Some(Dot(factors[t], At(sources, p), |sources|))
  {
    hide Dot, At, Join;
    var decoded := EncodeData(len, |sources|, factors, sources);
    payload := Join(decoded);
    JoinLength(decoded, len);
    forall t, p | 0 <= t < |factors| && 0 <= p < len
      ensures PayloadByte(payload, len, t, p) == Some(Dot(factors[t], At(sources, p), |sources|))
    {
      JoinAt(decoded, len, t, p);
    }
  }

  /** Byte p of block t in a payload of consecutive blocks. */
  function PayloadByte(payload: seq<byte>, len: nat, t: nat, p: nat): Option<byte> {
    if t * len + p < |payload| then Some(payload[t * len + p]) else None
  }

  // ----- what the destination does with it

  /** The bytes that all payloads have for byte p of block b. */
  function PayloadBytes(payloads: seq<seq<byte>>, len: nat, b: nat, p: nat): (s: Vec)
    requires forall i :: 0 <= i < |payloads| ==> b * len + p < |payloads[i]|
    ensures |s| == |payloads|
    ensures forall i :: 0 <= i < |payloads| ==> s[i] == payloads[i][b * len + p]
  {
    seq(|payloads|, i requires 0 <= i < |payloads| => payloads[i][b * len + p])
  }

  /** out is the byte-wise XOR of slice b of all payloads. */
  ghost predicate SliceXored(out: seq<byte>, payloads: seq<seq<byte>>, len: nat, b: nat) {
    && |out| == len
    && (forall i :: 0 <= i < |payloads| ==> b * len + len <= |payloads[i]|)
    && forall p :: 0 <= p < len ==> out[p] == XorAll(PayloadBytes(payloads, len, b, p))
  }

  method XorSlice(payloads: seq<seq<byte>>, len: nat, b: nat) returns (out: array<byte>)
    requires forall i :: 0 <= i < |payloads| ==> b * len + len <= |payloads[i]|
    ensures SliceXored(out[..], payloads, len, b)
  {
    hide XorAll, SliceXored;
    out := new byte[len](_ => 0);
    NothingXored(payloads, len, b);
    for i := 0 to |payloads|
      invariant forall p :: 0 <= p < len ==> out[p] == XorAll(PayloadBytes(payloads, len, b, p)[..i])
    {
      XorInto(out, payloads, len, b, i);
    }
    AllXored(out[..], payloads, len, b);
  }

  lemma NothingXored(payloads: seq<seq<byte>>, len: nat, b: nat)
    requires forall i :: 0 <= i < |payloads| ==> b * len + len <= |payloads[i]|
    ensures forall p :: 0 <= p < len ==> XorAll(PayloadBytes(payloads, len, b, p)[..0]) == 0
  {
  }

  lemma AllXored(out: seq<byte>, payloads: seq<seq<byte>>, len: nat, b: nat)
    requires |out| == len && forall i :: 0 <= i < |payloads| ==> b * len + len <= |payloads[i]|
    requires forall p :: 0 <= p < len ==> out[p] == XorAll(PayloadBytes(payloads, len, b, p)[..|payloads|])
    ensures SliceXored(out, payloads, len, b)
  {
    hide XorAll;
    assert forall p :: 0 <= p < len ==>
      PayloadBytes(payloads, len, b, p)[..|payloads|] == PayloadBytes(payloads, len, b, p);
  }

  lemma XorNext(s: Vec, i: nat)
    requires i < |s|
    ensures XorAll(s[..i + 1]) == Add(XorAll(s[..i]), s[i])
  {
    hide Add;
    assert s[..i + 1][..i] == s[..i];
  }

  method XorInto(out: array<byte>, payloads: seq<seq<byte>>, len: nat, b: nat, i: nat)
    requires i < |payloads| && forall l :: 0 <= l < |payloads| ==> b * len + len <= |payloads[l]|
    requires out.Length == len
    requires forall p :: 0 <= p < len ==> out[p] == XorAll(PayloadBytes(payloads, len, b, p)[..i])
    modifies out
    ensures forall p :: 0 <= p < len ==> out[p] == XorAll(PayloadBytes(payloads, len, b, p)[..i + 1])
  {
    hide Add, XorAll;
    for p := 0 to len
      invariant forall q :: 0 <= q < p ==> out[q] == XorAll(PayloadBytes(payloads, len, b, q)[..i + 1])
      invariant forall q :: p <= q < len ==> out[q] == XorAll(PayloadBytes(payloads, len, b, q)[..i])
    {
      var s := PayloadBytes(payloads, len, b, p);
      XorNext(s, i);
      out[p] := Add(out[p], payloads[i][b * len + p]);
    }
  }

  /** Without a sending proxy or without a block to recover the request is refused. */
  method MultipleRecovery(payloads: seq<seq<byte>>, blockNum: nat, len: nat) returns (blocks: Option<seq<seq<byte>>>)
    requires forall i :: 0 <= i < |payloads| ==> |payloads[i]| == blockNum * len
    ensures blocks.None? <==> |payloads| == 0 || blockNum == 0
    ensures blocks.Some? ==> |blocks.value| == blockNum
    ensures blocks.Some? ==> forall b :: 0 <= b < blockNum ==> SliceXored(blocks.value[b], payloads, len, b)
  {
    hide SliceXored;
    if |payloads| == 0 || blockNum == 0 {
      return None;
    }
    var res: seq<seq<byte>> := [];
    for b := 0 to blockNum
      invariant |res| == b
      invariant forall c :: 0 <= c < b ==> SliceXored(res[c], payloads, len, c)
    {
      MulMono(b + 1, blockNum, len);
      assert (b + 1) * len == b * len + len;
      var out := XorSlice(payloads, len, b);
      res := res + [out[..]];
    }
    blocks := Some(res);
  }

  // ----- the whole exchange

  /** The source blocks with the given numbers. */
  function Fetch(stored: seq<seq<byte>>, ids: seq<nat>): (blocks: seq<seq<byte>>)
    requires InRange(ids, |stored|)
    ensures |blocks| == |ids| && forall i :: 0 <= i < |ids| ==> blocks[i] == stored[ids[i]]
  {
    seq(|ids|, i requires 0 <= i < |ids| => stored[ids[i]])
  }

  /** The column positions of one part, in terms of block numbers. */
  function PickIds(ids: seq<nat>, part: seq<nat>): (res: seq<nat>)
    requires InRange(part, |ids|)
    ensures |res| == |part| && forall i :: 0 <= i < |part| ==> res[i] == ids[part[i]]
  {
    seq(|part|, i requires 0 <= i < |part| => ids[part[i]])
  }

  /** Source i of the plan is read by the proxy whose part contains i. Every proxy with a part gets its columns of the
      factors; the recovered blocks are the lost ones. */
  method RecoverThroughProxies(gen: Mat, k: nat, failed: seq<nat>, plan: Plan, parts: seq<seq<nat>>,
      stored: seq<seq<byte>>, ghost data: seq<seq<byte>>, len: nat)
    returns (blocks: Option<seq<seq<byte>>>)
    requires IsMat(gen, |gen|, k) && |data| == k && forall t :: 0 <= t < |failed| ==> failed[t] < |gen|
    requires ValidPlan(gen, k, failed, plan) && Stores(stored, gen, data, len)
    requires Partition(parts, Upto(k)) && forall p :: 0 <= p < |parts| ==> InRange(parts[p], k) && parts[p] != []
    ensures blocks.Some? <==> |parts| > 0 && |failed| > 0
    ensures blocks.Some? ==> |blocks.value| == |failed|
    ensures blocks.Some? ==> forall t :: 0 <= t < |failed| ==> blocks.value[t] == stored[failed[t]]
  {
    hide SliceXored, Stores, ValidPlan, XorAll, Partition, PayloadByte, Dot, PayloadBytes;
    PlanShape(gen, k, failed, plan, stored, data, len);
    var payloads: seq<seq<byte>> := [];
    for p := 0 to |parts|
      invariant |payloads| == p
      invariant forall i :: 0 <= i < p ==> Sent(payloads[i], k, plan, parts[i], stored, len)
    {
      var payload := SendPart(k, plan, parts[p], stored, len);
      payloads := payloads + [payload];
    }
    assert forall i :: 0 <= i < |payloads| ==> |payloads[i]| == |failed| * len;
    blocks := MultipleRecovery(payloads, |failed|, len);
    if blocks.Some? {
      forall t | 0 <= t < |failed| ensures blocks.value[t] == stored[failed[t]] {
        RecoveredBlock(gen, k, failed, plan, parts, stored, data, len, payloads, t, blocks.value[t]);
      }
    }
  }

  ghost predicate PlanFits(k: nat, plan: Plan, stored: seq<seq<byte>>, len: nat) {
    && |plan.sources| == k && InRange(plan.sources, |stored|)
    && (forall t :: 0 <= t < |plan.factors| ==> |plan.factors[t]| == k)
    && forall i :: 0 <= i < |stored| ==> |stored[i]| == len
  }

  lemma PlanShape(gen: Mat, k: nat, failed: seq<nat>, plan: Plan, stored: seq<seq<byte>>, data: seq<seq<byte>>, len: nat)
    requires IsMat(gen, |gen|, k) && |data| == k && forall t :: 0 <= t < |failed| ==> failed[t] < |gen|
    requires ValidPlan(gen, k, failed, plan) && Stores(stored, gen, data, len)
    ensures PlanFits(k, plan, stored, len) && |plan.factors| == |failed| && |stored| == |gen|
  {
  }

  /** The factors of failed block t for the columns of one part. */
  function PartFactors(plan: Plan, k: nat, part: seq<nat>): (f: seq<Vec>)
    requires InRange(part, k) && forall t :: 0 <= t < |plan.factors| ==> |plan.factors[t]| == k
    ensures |f| == |plan.factors|
    ensures forall t :: 0 <= t < |f| ==> f[t] == PickAt(plan.factors[t], part)
  {
    seq(|plan.factors|, t requires 0 <= t < |plan.factors| => PickAt(plan.factors[t], part))
  }

  ghost predicate Sent(payload: seq<byte>, k: nat, plan: Plan, part: seq<nat>, stored: seq<seq<byte>>, len: nat)
    requires PlanFits(k, plan, stored, len) && InRange(part, k)
  {
    && |payload| == |plan.factors| * len
    && forall t, p :: 0 <= t < |plan.factors| && 0 <= p < len ==>
         PayloadByte(payload, len, t, p)
           == Some(PartValue(plan.factors[t], At(Fetch(stored, plan.sources), p), part))
  }

  method SendPart(k: nat, plan: Plan, part: seq<nat>, stored: seq<seq<byte>>, len: nat) returns (payload: seq<byte>)
    requires PlanFits(k, plan, stored, len) && InRange(part, k) && part != []
    ensures Sent(payload, k, plan, part, stored, len)
  {
    hide PayloadByte, Dot;
    var sources := Fetch(stored, PickIds(plan.sources, part));
    payload := PartialDecoding(len, sources, PartFactors(plan, k, part));
    forall t, p | 0 <= t < |plan.factors| && 0 <= p < len
      ensures PayloadByte(payload, len, t, p)
        == Some(PartValue(plan.factors[t], At(Fetch(stored, plan.sources), p), part))
    {
      assert At(sources, p) == PickAt(At(Fetch(stored, plan.sources), p), part);
    }
  }

  lemma RecoveredBlock(gen: Mat, k: nat, failed: seq<nat>, plan: Plan, parts: seq<seq<nat>>,
      stored: seq<seq<byte>>, data: seq<seq<byte>>, len: nat, payloads: seq<seq<byte>>, t: nat, out: seq<byte>)
    requires IsMat(gen, |gen|, k) && |data| == k && forall u :: 0 <= u < |failed| ==> failed[u] < |gen|
    requires ValidPlan(gen, k, failed, plan) && Stores(stored, gen, data, len)
    requires Partition(parts, Upto(k)) && forall p :: 0 <= p < |parts| ==> InRange(parts[p], k)
    requires PlanFits(k, plan, stored, len) && |plan.factors| == |failed|
    requires |payloads| == |parts| && forall i :: 0 <= i < |parts| ==> Sent(payloads[i], k, plan, parts[i], stored, len)
    requires t < |failed| && SliceXored(out, payloads, len, t)
    ensures out == stored[failed[t]]
  {
    hide Dot, XorAll, Partition, ValidPlan, Encoded;
    var f := plan.factors[t];
    forall p | 0 <= p < len ensures out[p] == stored[failed[t]][p] {
      var y := At(Fetch(stored, plan.sources), p);
      forall i | 0 <= i < |parts| ensures PayloadBytes(payloads, len, t, p)[i] == PartValue(f, y, parts[i]) {
        assert Sent(payloads[i], k, plan, parts[i], stored, len);
        assert PayloadByte(payloads[i], len, t, p) == Some(PartValue(f, y, parts[i]));
      }
      PartialDots(f, y, parts, PayloadBytes(payloads, len, t, p));
      PlanDecodes(gen, k, failed, plan, stored, data, len, t, p);
    }
  }

  lemma PlanDecodes(gen: Mat, k: nat, failed: seq<nat>, plan: Plan,
      stored: seq<seq<byte>>, data: seq<seq<byte>>, len: nat, t: nat, p: nat)
    requires IsMat(gen, |gen|, k) && |data| == k && forall u :: 0 <= u < |failed| ==> failed[u] < |gen|
    requires ValidPlan(gen, k, failed, plan) && Stores(stored, gen, data, len)
    requires t < |failed| && p < len
    ensures InRange(plan.sources, |stored|)
    ensures |plan.factors| == |failed| && |plan.factors[t]| == k == |plan.sources|
    ensures stored[failed[t]][p] == Dot(plan.factors[t], At(Fetch(stored, plan.sources), p), k)
  {
    hide Dot;
    var x := At(data, p);
    assert At(Fetch(stored, plan.sources), p) == Apply(Select(gen, plan.sources), x);
  }
}
