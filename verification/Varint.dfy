/** Zigzag and base-128 encodings of 32-bit integers (src/buffer.cpp). */
module Varint {
  import opened Bytes
  import opened Flat
  import opened Wrappers

  const TWO31: nat := 0x8000_0000
  const TWO32: nat := 0x1_0000_0000

  type uint32 = n: int | 0 <= n < 0x1_0000_0000
  type int32 = n: int | -0x8000_0000 <= n < 0x8000_0000

  /** `x ^ y` where `y` is all ones or all zeros. */
  function XorAll(x: uint32, ones: bool): uint32 {
    if ones then TWO32 - 1 - x else x
  }

  /** The 32-bit integer with the bits of `x`. */
  function Signed(x: uint32): int32 {
    if x >= TWO31 then x - TWO32 else x
  }

  /** `(n << 1) ^ (n >> 31)`: the arithmetic shift copies the sign bit everywhere. */
  function EncodeZigZag32(n: int32): uint32 {
    XorAll((2 * n) % TWO32, n < 0)
  }

  /** `(n >> 1) ^ -(n & 1)`. */
  function DecodeZigZag32(n: uint32): int32 {
    Signed(XorAll(n / 2, n % 2 == 1))
  }

  /** Small absolute values get small codes, and the two functions are inverse to each other. */
  lemma ZigZagMeaning(n: int32)
    ensures EncodeZigZag32(n) == if n >= 0 then 2 * n else -2 * n - 1
  {
    if n < 0 {
      assert (2 * n) % TWO32 == 2 * n + TWO32;
    }
  }

  lemma ZigZagRoundTrip(n: int32)
    ensures DecodeZigZag32(EncodeZigZag32(n)) == n
  {
    ZigZagMeaning(n);
  }

  lemma ZigZagOnto(u: uint32)
    ensures EncodeZigZag32(DecodeZigZag32(u)) == u
  {
    ZigZagMeaning(DecodeZigZag32(u));
  }

  /** Seven bits a byte, the lowest first; the top bit says that more follow. */
  function VarBytes(v: nat): (s: seq<Byte>)
    ensures |s| > 0
  {
    if v < 0x80 then [v] else [v % 0x80 + 0x80] + VarBytes(v / 0x80)
  }

  /** The bytes as digits to base 128, the lowest first. */
  function Base128(s: seq<Byte>): nat {
    if s == [] then 0 else s[0] % 0x80 + 0x80 * Base128(s[1..])
  }

  /** The format: the digits are those of the number, and exactly the last byte is below 128. */
  lemma {:induction false} VarBytesFormat(v: nat)
    ensures Base128(VarBytes(v)) == v
    ensures forall i :: 0 <= i < |VarBytes(v)| ==> (VarBytes(v)[i] < 0x80 <==> i == |VarBytes(v)| - 1)
  {
    if v >= 0x80 {
      VarBytesFormat(v / 0x80);
      assert VarBytes(v)[1..] == VarBytes(v / 0x80);
    } else {
      assert VarBytes(v)[1..] == [];
    }
  }

  /** `x << 7 * k`. */
  function Shifted(x: nat, k: nat): nat
    requires k < 5
  {
    match k case 0 => x case 1 => x * 0x80 case 2 => x * 0x4000 case 3 => x * 0x20_0000 case 4 => x * 0x1000_0000
  }

  /** `result | (b & 0x7f) << 7 * k` in 32 bits, where `result` has no bits that high yet. */
  function Gathered(acc: nat, b: Byte, k: nat): nat
    requires k < 5
  {
    acc + Shifted(b % 0x80, k) % TWO32
  }

  /** What the reader makes of the bytes of `s` from `p` on, and where it stops: after a byte without the top bit, after
      five bytes, or at the end of the data, where it fails. */
  function Parse(s: seq<Byte>, p: nat, k: nat, acc: nat): (r: (Option<nat>, nat))
    requires p <= |s| && k <= 5
    decreases 5 - k
  {
    if k == 5 then (Some(acc), p)
    else if p == |s| then (None, p)
    else if s[p] < 0x80 then (Some(Gathered(acc, s[p], k)), p + 1)
    else Parse(s, p + 1, k + 1, Gathered(acc, s[p], k))
  }

  lemma {:induction false} VarBytesLength(v: nat)
    ensures v < 0x80 ==> |VarBytes(v)| == 1
    ensures 0x80 <= v < 0x4000 ==> |VarBytes(v)| == 2
    ensures 0x4000 <= v < 0x20_0000 ==> |VarBytes(v)| == 3
    ensures 0x20_0000 <= v < 0x1000_0000 ==> |VarBytes(v)| == 4
    ensures 0x1000_0000 <= v < 0x8_0000_0000 ==> |VarBytes(v)| == 5
  {
    if v >= 0x80 {
      VarBytesLength(v / 0x80);
    }
  }

  /** One byte more, seen from a value that fits. */
  lemma GatheredLow(acc: nat, v: nat, k: nat)
    requires k < 5 && Shifted(v, k) < TWO32
    ensures v < 0x80 ==> Gathered(acc, v, k) == acc + Shifted(v, k)
    ensures v >= 0x80 ==>
              && k < 4 && Shifted(v / 0x80, k + 1) < TWO32
              && Gathered(acc, v % 0x80 + 0x80, k) + Shifted(v / 0x80, k + 1) == acc + Shifted(v, k)
  {
    assert v == v / 0x80 * 0x80 + v % 0x80;
    assert (v % 0x80 + 0x80) % 0x80 == v % 0x80;
  }

  lemma {:induction false} ParseVarBytes(s: seq<Byte>, p: nat, k: nat, acc: nat, v: nat)
    requires k < 5 && Shifted(v, k) < TWO32
    requires p + |VarBytes(v)| <= |s| && s[p..p + |VarBytes(v)|] == VarBytes(v)
    ensures Parse(s, p, k, acc) == (Some(acc + Shifted(v, k)), p + |VarBytes(v)|)
    decreases v
  {
    var bytes := VarBytes(v);
    assert s[p] == s[p..p + |bytes|][0] == bytes[0];
    GatheredLow(acc, v, k);
    if v >= 0x80 {
      var rest := VarBytes(v / 0x80);
      assert s[p + 1..p + 1 + |rest|] == s[p..p + |bytes|][1..] == rest;
      ParseVarBytes(s, p + 1, k + 1, Gathered(acc, s[p], k), v / 0x80);
    }
  }

  /** What was written at `p` is read back from there, whatever was in the buffer, and the reader ends just behind
      it. */
  lemma VarintSurvives(contents: seq<Byte>, p: nat, v: uint32)
    requires p <= |contents|
    ensures p <= |Written(contents, p, VarBytes(v))|
    ensures Parse(Written(contents, p, VarBytes(v)), p, 0, 0) == (Some(v), p + |VarBytes(v)|)
    ensures 1 <= |VarBytes(v)| <= 5
  {
    var s := Written(contents, p, VarBytes(v));
    assert s[p..p + |VarBytes(v)|] == VarBytes(v);
    ParseVarBytes(s, p, 0, 0, v);
    VarBytesLength(v);
  }

  lemma Varint32Survives(contents: seq<Byte>, p: nat, n: int32)
    requires p <= |contents|
    ensures var s := Written(contents, p, VarBytes(EncodeZigZag32(n)));
      p <= |s| && var (u, q) := Parse(s, p, 0, 0);
      u.Some? && u.value < TWO32 && DecodeZigZag32(u.value) == n && p < q <= p + 5
  {
    VarintSurvives(contents, p, EncodeZigZag32(n));
    ZigZagRoundTrip(n);
  }

  /** A value gathered from `k` bytes has no bits above theirs, so that gathering the next byte is a bitwise or. */
  predicate Fits(acc: nat, k: nat) {
    acc < if k < 5 then Shifted(1, k) else TWO32
  }

  lemma GatheredFits(acc: nat, b: Byte, k: nat)
    requires k < 5 && Fits(acc, k)
    ensures Fits(Gathered(acc, b, k), k + 1) && Fits(Gathered(acc, b, k), 5)
  {
    if k == 4 {
      var x := b % 0x80;
      assert x * 0x1000_0000 == x / 16 * TWO32 + x % 16 * 0x1000_0000;
      assert (x * 0x1000_0000) % TWO32 == x % 16 * 0x1000_0000;
    } else {
      assert Shifted(b % 0x80, k) < TWO32;
    }
  }

  lemma {:induction false} ParseBounds(s: seq<Byte>, p: nat, k: nat, acc: nat)
    requires p <= |s| && k <= 5 && Fits(acc, k)
    ensures var (v, q) := Parse(s, p, k, acc); p <= q <= |s| && (v.Some? ==> v.value < TWO32)
    decreases 5 - k
  {
    if k < 5 && p < |s| {
      GatheredFits(acc, s[p], k);
      if s[p] >= 0x80 {
        ParseBounds(s, p + 1, k + 1, Gathered(acc, s[p], k));
      }
    }
  }

  /** On any bytes: what is read is the number of the digits up to the first byte below 128, in 32 bits. */
  lemma {:induction false} ParseMeaning(s: seq<Byte>, p: nat, k: nat, acc: nat, n: nat)
    requires p + n < |s| && k + n < 5 && Fits(acc, k) && s[p + n] < 0x80
    requires forall i :: p <= i < p + n ==> s[i] >= 0x80
    ensures Parse(s, p, k, acc) == (Some((acc + Shifted(Base128(s[p..p + n + 1]), k)) % TWO32), p + n + 1)
    decreases n
  {
    hide Shifted, Gathered, Fits;
    var digits := s[p..p + n + 1];
    GatheredFits(acc, s[p], k);
    assert digits[0] == s[p];
    if n == 0 {
      assert digits[1..] == [];
      GatheredOne(acc, s[p], k, 0);
    } else {
      ParseMeaning(s, p + 1, k + 1, Gathered(acc, s[p], k), n - 1);
      assert digits[1..] == s[p + 1..p + 1 + n];
      GatheredOne(acc, s[p], k, Base128(digits[1..]));
    }
  }

  /** One digit more, in 32 bits. */
  lemma GatheredOne(acc: nat, b: Byte, k: nat, rest: nat)
    requires k < 5 && Fits(acc, k) && (k == 4 ==> rest == 0)
    ensures (Gathered(acc, b, k) + if k < 4 then Shifted(rest, k + 1) else 0) % TWO32
         == (acc + Shifted(b % 0x80 + 0x80 * rest, k)) % TWO32
    ensures rest == 0 ==> Gathered(acc, b, k) == (acc + Shifted(b % 0x80, k)) % TWO32
  {
    hide Shifted, Gathered;
    GatheredFits(acc, b, k);
    if k == 4 {
      LastGathered(acc, b);
    } else {
      ShiftedSum(b % 0x80, rest, k);
      ShiftedSum(b % 0x80, 0, k);
      EarlyGathered(acc, b, k);
    }
  }

  lemma EarlyGathered(acc: nat, b: Byte, k: nat)
    requires k < 4
    ensures Gathered(acc, b, k) == acc + Shifted(b % 0x80, k)
  {
    assert Shifted(b % 0x80, k) < TWO32;
  }

  lemma LastGathered(acc: nat, b: Byte)
    ensures Gathered(acc, b, 4) % TWO32 == (acc + Shifted(b % 0x80, 4)) % TWO32
  {
    Multiples(acc, Shifted(b % 0x80, 4));
  }

  lemma ShiftedSum(x: nat, rest: nat, k: nat)
    requires k < 4
    ensures Shifted(x + 0x80 * rest, k) == Shifted(x, k) + Shifted(rest, k + 1) && Shifted(0, k + 1) == 0
  {
  }

  lemma Multiples(acc: nat, x: nat)
    ensures (acc + x % TWO32) % TWO32 == (acc + x) % TWO32
  {
  }

  /** The encoding loop of `writeVaruint32`. */
  method PutVarBytes(value: uint32, tmp: array<Byte>) returns (i: nat)
    requires tmp.Length == 5
    modifies tmp
    ensures i <= 5 && tmp[..i] == VarBytes(value)
  {
    var v: nat := value;
    i := 0;
    VarBytesLength(v);
    while v >= 0x80
      invariant i + |VarBytes(v)| == |VarBytes(value)| <= 5 && tmp[..i] + VarBytes(v) == VarBytes(value)
    {
      tmp[i] := v % 0x80 + 0x80;
      v, i := v / 0x80, i + 1;
    }
    tmp[i] := v;
    i := i + 1;
  }

  /** Numbers written one after the other. */
  function AllVarBytes(vs: seq<uint32>): seq<Byte> {
    if vs == [] then [] else AllVarBytes(vs[..|vs| - 1]) + VarBytes(vs[|vs| - 1])
  }

  lemma NoVarBytes()
    ensures AllVarBytes([]) == []
  {
  }

  lemma AllVarBytesPush(vs: seq<uint32>, i: nat)
    requires i < |vs|
    ensures AllVarBytes(vs[..i + 1]) == AllVarBytes(vs[..i]) + VarBytes(vs[i])
  {
    assert vs[..i + 1][..i] == vs[..i];
  }

  lemma {:induction false} AllVarBytesPrefix(vs: seq<uint32>, i: nat)
    requires i <= |vs|
    ensures AllVarBytes(vs[..i]) <= AllVarBytes(vs)
    decreases |vs| - i
  {
    if i < |vs| {
      AllVarBytesPush(vs, i);
      AllVarBytesPrefix(vs, i + 1);
    } else {
      assert vs[..i] == vs;
    }
  }

  /** The reader finds the next number where the one before it ended. */
  lemma ParseNext(vs: seq<uint32>, i: nat)
    requires i < |vs|
    ensures var s, p := AllVarBytes(vs), |AllVarBytes(vs[..i])|;
      p <= |s| && Parse(s, p, 0, 0) == (Some(vs[i]), |AllVarBytes(vs[..i + 1])|)
  {
    var s, p, bytes := AllVarBytes(vs), |AllVarBytes(vs[..i])|, VarBytes(vs[i]);
    AllVarBytesPush(vs, i);
    AllVarBytesPrefix(vs, i + 1);
    assert s[p..p + |bytes|] == bytes;
    ParseVarBytes(s, p, 0, 0, vs[i]);
  }

  function ZigZags(vs: seq<int32>): (codes: seq<uint32>)
    ensures |codes| == |vs| && forall i :: 0 <= i < |vs| ==> codes[i] == EncodeZigZag32(vs[i])
  {
    seq(|vs|, i requires 0 <= i < |vs| => EncodeZigZag32(vs[i]))
  }
}