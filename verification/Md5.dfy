/** Streaming MD5 (src/util.cpp): blocks, the buffered tail, and padding as in sections 3.1 and 3.2 of RFC 1321. What is
    done to a single block is a parameter. */
module Md5 {
  import opened Bytes
  import opened Flat

  const TWO32: nat := 0x1_0000_0000
  const TWO64: nat := 0x1_0000_0000_0000_0000

  type Word = n: int | 0 <= n < 0x1_0000_0000

  datatype Words = Words(a: Word, b: Word, c: Word, d: Word)

  const INIT := Words(0x6745_2301, 0xefcd_ab89, 0x98ba_dcfe, 0x1032_5476)

  /** What a block of 64 bytes does to the four words. */
  type Compression = (Words, seq<Byte>) -> Words

  /** The whole blocks of `data`, one after the other. */
  function Fold(f: Compression, w: Words, data: seq<Byte>): Words
    decreases |data|
  {
    if |data| < 64 then w else Fold(f, f(w, data[..64]), data[64..])
  }

  /** What is left of `data` behind its whole blocks. */
  function Tail(data: seq<Byte>): (t: seq<Byte>)
    ensures |t| == |data| % 64
  {
    if |data| < 64 then data else Tail(data[64..])
  }

  lemma {:induction false} FoldConcat(f: Compression, w: Words, a: seq<Byte>, b: seq<Byte>)
    requires |a| % 64 == 0
    ensures Fold(f, w, a + b) == Fold(f, Fold(f, w, a), b) && Tail(a + b) == Tail(b)
    decreases |a|
  {
    if a == [] {
      assert a + b == b;
    } else {
      FoldConcat(f, f(w, a[..64]), a[64..], b);
      assert (a + b)[..64] == a[..64] && (a + b)[64..] == a[64..] + b;
    }
  }

  /** Everything that is known of `msg` is its words and its tail. */
  lemma {:induction false} FoldMore(f: Compression, w: Words, msg: seq<Byte>, data: seq<Byte>)
    ensures Fold(f, w, msg + data) == Fold(f, Fold(f, w, msg), Tail(msg) + data)
    ensures Tail(msg + data) == Tail(Tail(msg) + data)
    decreases |msg|
  {
    if |msg| >= 64 {
      FoldMore(f, f(w, msg[..64]), msg[64..], data);
      assert (msg + data)[..64] == msg[..64] && (msg + data)[64..] == msg[64..] + data;
    }
  }

  /** The whole blocks and the tail make up the data. */
  lemma {:induction false} FoldWhole(f: Compression, w: Words, data: seq<Byte>)
    ensures var n := |data| - |data| % 64; Fold(f, w, data[..n]) == Fold(f, w, data) && data[n..] == Tail(data)
    decreases |data|
  {
    if |data| >= 64 {
      var n := |data| - |data| % 64;
      FoldWhole(f, f(w, data[..64]), data[64..]);
      assert |data[64..]| % 64 == |data| % 64;
      assert data[..n][..64] == data[..64] && data[..n][64..] == data[64..][..n - 64];
      assert data[64..][n - 64..] == data[n..];
    } else {
      assert data[..0] == [] && data[0..] == data;
    }
  }

  lemma FoldSmall(f: Compression, w: Words, data: seq<Byte>)
    requires |data| < 64
    ensures Fold(f, w, data) == w && Tail(data) == data
  {
  }

  /** The 64-bit count still knows how full the buffer is, and adding to it is adding modulo 2^64. */
  lemma CountBits(n: nat, m: nat)
    ensures n % TWO64 % 64 == n % 64 && (n % TWO64 + m) % TWO64 == (n + m) % TWO64
  {
    var q := n / TWO64;
    assert n == q * TWO64 + n % TWO64;
    assert n % 64 == (q * (TWO64 / 64) * 64 + n % TWO64) % 64;
  }

  /** The lowest `k` bytes of `n`, the lowest first. */
  function LittleEndian(n: nat, k: nat): (s: seq<Byte>)
    ensures |s| == k
  {
    if k == 0 then [] else [n % 0x100] + LittleEndian(n / 0x100, k - 1)
  }

  function Zeros(n: nat): (s: seq<Byte>)
    ensures |s| == n && forall i :: 0 <= i < n ==> s[i] == 0
  {
    if n == 0 then [] else Zeros(n - 1) + [0]
  }

  /** How many zero bytes follow the first padding byte of a message of `n` bytes. */
  function ZeroCount(n: nat): nat {
    (119 - n % 64) % 64
  }

  /** Section 3.1 asks for at least one bit of padding up to 448 modulo 512 bits, and for as little as possible. */
  lemma PaddingIsLeast(n: nat, k: nat)
    ensures (n + 1 + ZeroCount(n)) % 64 == 56
    ensures (n + 1 + k) % 64 == 56 ==> k >= ZeroCount(n)
  {
    assert n == n / 64 * 64 + n % 64;
  }

  lemma {:induction false} ZerosSplit(a: nat, b: nat)
    ensures Zeros(a + b) == Zeros(a) + Zeros(b)
  {
  }

  lemma {:induction false} Wraps(k: nat, n: nat)
    ensures (k * TWO64 + n) % TWO64 == n % TWO64
  {
    if k > 0 {
      Wraps(k - 1, n);
      assert k * TWO64 + n == (k - 1) * TWO64 + n + TWO64;
    }
  }

  lemma BitCount(n: nat)
    ensures n % TWO64 * 8 % TWO64 == 8 * n % TWO64
  {
    assert 8 * n == n / TWO64 * 8 * TWO64 + n % TWO64 * 8;
    Wraps(n / TWO64 * 8, n % TWO64 * 8);
  }

  lemma OneBlock(f: Compression, w: Words, block: seq<Byte>)
    requires |block| == 64
    ensures Fold(f, w, block) == f(w, block)
  {
    assert block[..64] == block;
  }

  /** What is appended to a message of `n` bytes: section 3.2 adds the number of its bits modulo 2^64, low byte
      first. */
  function Padding(n: nat): seq<Byte> {
    [0x80] + Zeros(ZeroCount(n)) + LittleEndian(8 * n % TWO64, 8)
  }

  function Digest(f: Compression, msg: seq<Byte>): seq<Byte> {
    var w := Fold(f, INIT, msg + Padding(|msg|));
    LittleEndian(w.a, 4) + LittleEndian(w.b, 4) + LittleEndian(w.c, 4) + LittleEndian(w.d, 4)
  }

  /** The padding ends the block in the buffer. */
  lemma PaddingOneBlock(f: Compression, w: Words, tail: seq<Byte>, n: nat)
    requires |tail| == n % 64 <= 55
    ensures Fold(f, w, tail + Padding(n))
         == f(w, tail + [0x80] + Zeros(55 - |tail|) + LittleEndian(8 * n % TWO64, 8))
  {
    assert ZeroCount(n) == 55 - |tail|;
    assert tail + Padding(n) == tail + [0x80] + Zeros(55 - |tail|) + LittleEndian(8 * n % TWO64, 8);
    OneBlock(f, w, tail + Padding(n));
  }

  /** The padding needs a block more. */
  lemma PaddingTwoBlocks(f: Compression, w: Words, tail: seq<Byte>, n: nat)
    requires |tail| == n % 64 > 55
    ensures Fold(f, w, tail + Padding(n))
         == f(f(w, tail + [0x80] + Zeros(63 - |tail|)), Zeros(56) + LittleEndian(8 * n % TWO64, 8))
  {
    assert ZeroCount(n) == 63 - |tail| + 56;
    ZerosSplit(63 - |tail|, 56);
    var first, second := tail + [0x80] + Zeros(63 - |tail|), Zeros(56) + LittleEndian(8 * n % TWO64, 8);
    assert tail + Padding(n) == first + second;
    FoldConcat(f, w, first, second);
    OneBlock(f, w, first);
    OneBlock(f, f(w, first), second);
  }

  class Context {
    const f: Compression
    const buffer: array<Byte>
    var words: Words
    var bytes: nat
    ghost var msg: seq<Byte>   // everything it has been given

    constructor (f: Compression)
      ensures Valid() && msg == [] && this.f == f && fresh(buffer)
    {
      this.f := f;
      buffer := new Byte[64];
      words, bytes, msg := INIT, 0, [];
    }

    /** The state is a function of the bytes given, however they were cut: their whole blocks are in the words, the rest
        is in the buffer, and they are counted modulo 2^64. */
    ghost predicate Valid()
      reads this, buffer
    {
      && buffer.Length == 64 && words == Fold(f, INIT, msg) && bytes == |msg| % TWO64
      && buffer[..|msg| % 64] == Tail(msg)
    }

    /** `MD5Body` over the blocks of `data`. */
    method Body(data: seq<Byte>)
      requires data != [] && |data| % 64 == 0
      modifies this`words
      ensures words == Fold(f, old(words), data)
    {
      var p := 0;
      while p < |data|
        invariant p % 64 == 0 && p <= |data|
        invariant Fold(f, words, data[p..]) == Fold(f, old(words), data)
      {
        words := f(words, data[p..p + 64]);
        assert data[p..][..64] == data[p..p + 64] && data[p..][64..] == data[p + 64..];
        p := p + 64;
      }
    }

    /** The last part of `MD5Update`, with nothing left in the buffer: whole blocks, then the tail. */
    method Absorb(data: seq<Byte>)
      requires buffer.Length == 64
      modifies this`words, buffer
      ensures words == Fold(f, old(words), data) && buffer[..|data| % 64] == Tail(data)
    {
      var n := |data| - |data| % 64;
      FoldWhole(f, words, data);
      if |data| >= 64 {
        Body(data[..n]);
      } else {
        assert data[..n] == [];
      }
      Memcpy(buffer, 0, data, n, |data|);
      assert buffer[..|data| % 64] == data[n..];
    }

    /** The first part of `MD5Update`, when the data completes the buffered block. */
    method Complete(data: seq<Byte>, used: nat, free: nat, ghost tail: seq<Byte>)
      requires buffer.Length == 64 == used + free && free <= |data| && tail == buffer[..used]
      modifies this`words, buffer
      ensures Fold(f, old(words), tail + data) == Fold(f, words, data[free..])
              && Tail(tail + data) == Tail(data[free..])
    {
      Memcpy(buffer, used, data, 0, free);
      assert buffer[..] == tail + data[..free];
      assert tail + data == (tail + data[..free]) + data[free..];
      FoldConcat(f, words, tail + data[..free], data[free..]);
      Body(buffer[..]);
    }

    /** `MD5Update`. */
    method Update(data: seq<Byte>)
      requires Valid()
      modifies this`words, this`bytes, this`msg, buffer
      ensures Valid() && msg == old(msg) + data
    {
      hide Fold, Tail;
      CountBits(|msg|, |data|);
      CountBits(|msg + data|, 0);
      var used := bytes % 64;
      bytes := (bytes + |data|) % TWO64;
      FoldMore(f, INIT, msg, data);
      ghost var tail := Tail(msg);
      msg := msg + data;
      var rest := data;
      if used > 0 {
        var free := 64 - used;
        if |data| < free {
          Memcpy(buffer, used, data, 0, |data|);
          assert buffer[..used + |data|] == tail + data;
          FoldSmall(f, words, tail + data);
          return;
        }
        Complete(data, used, free, tail);
        rest := data[free..];
      } else {
        assert tail + data == data;
      }
      Absorb(rest);
    }

    method Memset(at: nat, n: nat)
      requires buffer.Length == 64 && at + n <= 64
      modifies buffer
      ensures buffer[..] == old(buffer[..at]) + Zeros(n) + old(buffer[at + n..])
    {
      forall k | at <= k < at + n {
        buffer[k] := 0;
      }
    }

    /** Ends the last block with zeros and the bit count. */
    method LastBlock(used: nat, bits: nat, ghost head: seq<Byte>)
      requires buffer.Length == 64 && used <= 56 && buffer[..used] == head
      modifies this`words, buffer
      ensures words == f(old(words), head + Zeros(56 - used) + LittleEndian(bits, 8))
    {
      Memset(used, 56 - used);
      assert buffer[..56] == head + Zeros(56 - used);
      PutCount(bits);
      Body(buffer[..]);
      OneBlock(f, old(words), buffer[..]);
    }

    /** `MD5Final` up to its result: the padding of the message goes through the same blocks. */
    method Pad()
      requires Valid()
      modifies this`words, buffer
      ensures words == Fold(f, INIT, msg + Padding(|msg|))
    {
      hide Fold, Tail, LittleEndian, Padding;
      CountBits(|msg|, 0);
      BitCount(|msg|);
      ghost var tail := Tail(msg);
      FoldMore(f, INIT, msg, Padding(|msg|));
      var used := bytes % 64;
      buffer[used] := 0x80;
      used := used + 1;
      assert buffer[..used] == tail + [0x80];
      if 64 - used < 8 {
        PaddingTwoBlocks(f, words, tail, |msg|);
        Memset(used, 64 - used);
        assert buffer[..] == tail + [0x80] + Zeros(64 - used);
        Body(buffer[..]);
        OneBlock(f, old(words), tail + [0x80] + Zeros(64 - used));
        assert [] + Zeros(56) == Zeros(56);
        LastBlock(0, bytes * 8 % TWO64, []);
      } else {
        PaddingOneBlock(f, words, tail, |msg|);
        LastBlock(used, bytes * 8 % TWO64, tail + [0x80]);
      }
    }

    /** `MD5Final`: the digest; nothing of the message is left behind. */
    method Final() returns (result: seq<Byte>)
      requires Valid()
      modifies this, buffer
      ensures result == Digest(f, old(msg))
      ensures words == Words(0, 0, 0, 0) && bytes == 0 && buffer[..] == Zeros(64)
    {
      hide Fold, LittleEndian, Padding;
      Pad();
      result := LittleEndian(words.a, 4) + LittleEndian(words.b, 4) + LittleEndian(words.c, 4)
          + LittleEndian(words.d, 4);
      words, bytes := Words(0, 0, 0, 0), 0;
      Memset(0, 64);
    }

    /** The bit count in the last eight bytes of the buffer. */
    method PutCount(bits: nat)
      requires buffer.Length == 64
      modifies buffer
      ensures buffer[..] == old(buffer[..56]) + LittleEndian(bits, 8)
    {
      buffer[56] := bits % 0x100;
      buffer[57] := bits / 0x100 % 0x100;
      buffer[58] := bits / 0x1_0000 % 0x100;
      buffer[59] := bits / 0x100_0000 % 0x100;
      buffer[60] := bits / 0x1_0000_0000 % 0x100;
      buffer[61] := bits / 0x100_0000_0000 % 0x100;
      buffer[62] := bits / 0x1_0000_0000_0000 % 0x100;
      buffer[63] := bits / 0x100_0000_0000_0000 % 0x100;
      EightBytes(bits);
    }
  }

  lemma EightBytes(n: nat)
    ensures LittleEndian(n, 8) == [n % 0x100, n / 0x100 % 0x100, n / 0x1_0000 % 0x100, n / 0x100_0000 % 0x100,
                                   n / 0x1_0000_0000 % 0x100, n / 0x100_0000_0000 % 0x100,
                                   n / 0x1_0000_0000_0000 % 0x100, n / 0x100_0000_0000_0000 % 0x100]
  {
    var m := n / 0x1_0000_0000;
    FourBytes(n, 4);
    FourBytes(m, 0);
    assert m / 0x100 == n / 0x100_0000_0000;
    assert m / 0x1_0000 == n / 0x1_0000_0000_0000;
    assert m / 0x100_0000 == n / 0x100_0000_0000_0000;
  }

  lemma Quotients(n: nat)
    ensures n / 0x100 / 0x100 == n / 0x1_0000 && n / 0x1_0000 / 0x100 == n / 0x100_0000
    ensures n / 0x100_0000 / 0x100 == n / 0x1_0000_0000
  {
  }

  lemma LowByte(n: nat, k: nat)
    ensures LittleEndian(n, k + 1) == [n % 0x100] + LittleEndian(n / 0x100, k)
  {
  }

  lemma FourBytes(n: nat, k: nat)
    ensures LittleEndian(n, k + 4) == [n % 0x100, n / 0x100 % 0x100, n / 0x1_0000 % 0x100, n / 0x100_0000 % 0x100]
                                      + LittleEndian(n / 0x1_0000_0000, k)
  {
    var a, b, c := n / 0x100, n / 0x1_0000, n / 0x100_0000;
    hide LittleEndian;
    Quotients(n);
    LowByte(c, k);
    LowByte(b, k + 1);
    LowByte(a, k + 2);
    LowByte(n, k + 3);
  }

  /** Section 3.3 of RFC 1321 gives the initial words byte by byte, the low byte first. */
  lemma InitialBytes()
    ensures LittleEndian(INIT.a, 4) == [0x01, 0x23, 0x45, 0x67] && LittleEndian(INIT.b, 4) == [0x89, 0xab, 0xcd, 0xef]
    ensures LittleEndian(INIT.c, 4) == [0xfe, 0xdc, 0xba, 0x98] && LittleEndian(INIT.d, 4) == [0x76, 0x54, 0x32, 0x10]
  {
    FourBytes(INIT.a, 0);
    FourBytes(INIT.b, 0);
    FourBytes(INIT.c, 0);
    FourBytes(INIT.d, 0);
  }

  /** Sections 3.1 and 3.2: a one bit and as few zero bits as fill up to eight bytes short of a block, then the number
      of bits, the low byte first. */
  lemma PaddingFormat(n: nat)
    ensures var p := Padding(n); var bits := 8 * n % 0x1_0000_0000_0000_0000;
      && (n + |p| - 8) % 64 == 56 && 9 <= |p| <= 72 && p[0] == 0x80
      && (forall k :: 0 < k < |p| - 8 ==> p[k] == 0)
      && p[|p| - 8..]
         == [bits % 0x100, bits / 0x100 % 0x100, bits / 0x1_0000 % 0x100, bits / 0x100_0000 % 0x100,
             bits / 0x1_0000_0000 % 0x100, bits / 0x100_0000_0000 % 0x100, bits / 0x1_0000_0000_0000 % 0x100,
             bits / 0x100_0000_0000_0000 % 0x100]
  {
    var bits := 8 * n % 0x1_0000_0000_0000_0000;
    PaddingIsLeast(n, 0);
    EightBytes(bits);
    PaddingParts(n);
    hide *;
    Parts(Padding(n), Zeros(ZeroCount(n)), LittleEndian(bits, 8));
  }

  lemma PaddingParts(n: nat)
    ensures Padding(n) == [0x80] + Zeros(ZeroCount(n)) + LittleEndian(8 * n % 0x1_0000_0000_0000_0000, 8)
    ensures ZeroCount(n) < 64
  {
    hide LittleEndian, Zeros;
  }

  lemma Parts(p: seq<Byte>, zeros: seq<Byte>, count: seq<Byte>)
    requires p == [0x80] + zeros + count && |count| == 8 && forall i :: 0 <= i < |zeros| ==> zeros[i] == 0
    ensures |p| == |zeros| + 9 && p[0] == 0x80 && (forall k :: 0 < k < |p| - 8 ==> p[k] == 0) && p[|p| - 8..] == count
  {
    assert forall k :: 0 < k < |p| - 8 ==> p[k] == zeros[k - 1];
  }

  /** Section 3.5: the digest is the four words after the padded message, each with its low byte first. */
  lemma DigestFormat(f: Compression, msg: seq<Byte>)
    ensures var w := Fold(f, Words(0x6745_2301, 0xefcd_ab89, 0x98ba_dcfe, 0x1032_5476), msg + Padding(|msg|));
      Digest(f, msg)
      == [w.a % 0x100, w.a / 0x100 % 0x100, w.a / 0x1_0000 % 0x100, w.a / 0x100_0000 % 0x100]
         + [w.b % 0x100, w.b / 0x100 % 0x100, w.b / 0x1_0000 % 0x100, w.b / 0x100_0000 % 0x100]
         + [w.c % 0x100, w.c / 0x100 % 0x100, w.c / 0x1_0000 % 0x100, w.c / 0x100_0000 % 0x100]
         + [w.d % 0x100, w.d / 0x100 % 0x100, w.d / 0x1_0000 % 0x100, w.d / 0x100_0000 % 0x100]
  {
    hide Fold, Padding, LittleEndian;
    var w := Fold(f, INIT, msg + Padding(|msg|));
    FourBytesOnly(w.a);
    FourBytesOnly(w.b);
    FourBytesOnly(w.c);
    FourBytesOnly(w.d);
  }

  lemma FourBytesOnly(n: nat)
    ensures LittleEndian(n, 4) == [n % 0x100, n / 0x100 % 0x100, n / 0x1_0000 % 0x100, n / 0x100_0000 % 0x100]
  {
    FourBytes(n, 0);
  }
}
