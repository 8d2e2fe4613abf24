/** A flat byte array cut into blocks of equal size, and overwriting a stretch of it. */
module Flat {
  import opened Bytes

  /** The size of `n` blocks. */
  function Span(n: nat, base: nat): nat {
    if n == 0 then 0 else Span(n - 1, base) + base
  }

  /** The block that position `p` is in. */
  function Block(p: nat, base: nat): nat
    requires base > 0
  {
    if p < base then 0 else Block(p - base, base) + 1
  }

  /** Where in its block position `p` is. */
  function Offset(p: nat, base: nat): (r: nat)
    requires base > 0
    ensures r < base
  {
    if p < base then p else Offset(p - base, base)
  }

  /** Blocks and offsets are the quotients and remainders that the code computes. */
  lemma {:induction false} BlockIsQuotient(p: nat, base: nat)
    requires base > 0
    ensures Block(p, base) == p / base && Offset(p, base) == p % base
    decreases p
  {
    if p >= base {
      BlockIsQuotient(p - base, base);
      assert p == (p - base) / base * base + (p - base) % base + base;
      Quotient(p, (p - base) / base + 1, (p - base) % base, base);
    } else {
      Quotient(p, 0, p, base);
    }
  }

  lemma Quotient(p: nat, q: nat, r: nat, base: nat)
    requires r < base && p == q * base + r
    ensures p / base == q && p % base == r
  {
    if q < p / base {
      Apart(q, p / base, base);
    } else if p / base < q {
      Apart(p / base, q, base);
    }
  }

  lemma Apart(i: nat, j: nat, base: nat)
    requires i < j
    ensures i * base + base <= j * base
  {
    assert j * base == i * base + (j - i) * base;
    assert (j - i) * base == base + (j - i - 1) * base;
  }

  lemma {:induction false} SpanIsProduct(n: nat, base: nat)
    ensures Span(n, base) == n * base
  {
    if n > 0 {
      SpanIsProduct(n - 1, base);
      assert n * base == (n - 1) * base + base;
    }
  }

  lemma {:induction false} SpanOf(p: nat, base: nat)
    requires base > 0
    ensures p == Span(Block(p, base), base) + Offset(p, base)
    decreases p
  {
    if p >= base {
      SpanOf(p - base, base);
    }
  }

  lemma {:induction false} BlockOf(i: nat, at: nat, base: nat)
    requires at < base
    ensures Block(Span(i, base) + at, base) == i && Offset(Span(i, base) + at, base) == at
  {
    if i > 0 {
      BlockOf(i - 1, at, base);
    }
  }

  lemma {:induction false} SpanGrows(i: nat, j: nat, base: nat)
    requires i < j
    ensures Span(i, base) + base <= Span(j, base)
    decreases j
  {
    if i < j - 1 {
      SpanGrows(i, j - 1, base);
    }
  }

  /** A position before the end of `n` blocks is in one of them. */
  lemma BlockInside(p: nat, n: nat, base: nat)
    requires base > 0 && p < Span(n, base)
    ensures Block(p, base) < n
  {
    SpanOf(p, base);
    if Block(p, base) > n {
      SpanGrows(n, Block(p, base), base);
    }
  }

  /** A position that moves within its block or to the end of it. */
  lemma NextPosition(p: nat, n: nat, count: nat, base: nat)
    requires base > 0 && p < Span(count, base) && Offset(p, base) + n <= base
    ensures Block(p, base) < count && p + n <= Span(count, base)
    ensures Offset(p, base) + n < base ==>
              p + n < Span(count, base) && Block(p + n, base) == Block(p, base)
                  && Offset(p + n, base) == Offset(p, base) + n
    ensures Offset(p, base) + n == base && Block(p, base) + 1 < count ==>
              p + n < Span(count, base) && Block(p + n, base) == Block(p, base) + 1 && Offset(p + n, base) == 0
    ensures Offset(p, base) + n == base && Block(p, base) + 1 == count ==> p + n == Span(count, base)
  {
    var i, at := Block(p, base), Offset(p, base);
    SpanOf(p, base);
    BlockInside(p, count, base);
    SpanGrows(i, count, base);
    if at + n < base {
      BlockOf(i, at + n, base);
    } else if i + 1 < count {
      BlockOf(i + 1, 0, base);
      SpanGrows(i + 1, count, base);
    }
  }

  /** How many blocks hold `n` bytes. */
  function BlocksFor(n: nat, base: nat): (count: nat)
    requires base > 0
    ensures n > 0 ==> count > 0
  {
    Block(n, base) + if Offset(n, base) != 0 then 1 else 0
  }

  lemma {:induction false} SpanAdds(a: nat, b: nat, base: nat)
    ensures Span(a + b, base) == Span(a, base) + Span(b, base)
    decreases b
  {
    if b > 0 {
      SpanAdds(a, b - 1, base);
    }
  }

  /** The blocks hold the bytes, and one block fewer would not. */
  lemma BlocksForSuffice(n: nat, base: nat)
    requires base > 0
    ensures Span(BlocksFor(n, base), base) >= n
    ensures n > 0 ==> Span(BlocksFor(n, base) - 1, base) < n
  {
    SpanOf(n, base);
    SpanAdds(Block(n, base), 1, base);
  }

  function Flatten(blocks: seq<seq<Byte>>): seq<Byte> {
    if blocks == [] then [] else Flatten(blocks[..|blocks| - 1]) + blocks[|blocks| - 1]
  }

  predicate Uniform(blocks: seq<seq<Byte>>, base: nat) {
    forall i :: 0 <= i < |blocks| ==> |blocks[i]| == base
  }

  /** `after` is `before` with `data[from..to]` copied in at `at`. */
  ghost predicate Copied(after: seq<Byte>, before: seq<Byte>, at: nat, data: seq<Byte>, from: nat, to: nat) {
    && from <= to <= |data| && at + (to - from) <= |before| == |after|
    && forall k :: 0 <= k < |after| ==>
        after[k] == if at <= k < at + (to - from) then data[from + (k - at)] else before[k]
  }

  /** Copies `src[from..to]` into `dst` from `at` on. */
  method Memcpy(dst: array<Byte>, at: nat, src: seq<Byte>, from: nat, to: nat)
    requires from <= to <= |src| && at + (to - from) <= dst.Length
    modifies dst
    ensures Copied(dst[..], old(dst[..]), at, src, from, to)
  {
    forall k | at <= k < at + (to - from) {
      dst[k] := src[from + (k - at)];
    }
  }

  lemma {:induction false} FlattenLength(blocks: seq<seq<Byte>>, base: nat)
    requires Uniform(blocks, base)
    ensures |Flatten(blocks)| == Span(|blocks|, base)
  {
    if blocks != [] {
      FlattenLength(blocks[..|blocks| - 1], base);
    }
  }

  lemma {:induction false} FlattenConcat(a: seq<seq<Byte>>, b: seq<seq<Byte>>)
    ensures Flatten(a + b) == Flatten(a) + Flatten(b)
  {
    if b == [] {
      assert a + b == a;
    } else {
      var front := b[..|b| - 1];
      FlattenConcat(a, front);
      assert (a + b)[..|a + b| - 1] == a + front;
      assert (a + b)[|a + b| - 1] == b[|b| - 1];
    }
  }

  /** The array around block `i`. */
  lemma FlattenAround(blocks: seq<seq<Byte>>, base: nat, i: nat)
    requires Uniform(blocks, base) && i < |blocks|
    ensures Flatten(blocks) == Flatten(blocks[..i]) + blocks[i] + Flatten(blocks[i + 1..])
    ensures |Flatten(blocks[..i])| == Span(i, base)
  {
    FlattenConcat(blocks[..i], [blocks[i]]);
    FlattenConcat(blocks[..i + 1], blocks[i + 1..]);
    assert blocks[..i] + [blocks[i]] == blocks[..i + 1];
    assert blocks[..i + 1] + blocks[i + 1..] == blocks;
    assert [blocks[i]][..0] == blocks[..0];
    FlattenLength(blocks[..i], base);
  }

  lemma CopiedInside(a: seq<Byte>, after: seq<Byte>, before: seq<Byte>, c: seq<Byte>, at: nat, data: seq<Byte>,
                     from: nat, to: nat)
    requires Copied(after, before, at, data, from, to)
    ensures Copied(a + after + c, a + before + c, |a| + at, data, from, to)
  {
  }

  lemma CopiedLength(after: seq<Byte>, before: seq<Byte>, at: nat, data: seq<Byte>, from: nat, to: nat)
    requires Copied(after, before, at, data, from, to)
    ensures |after| == |before|
  {
  }

  lemma ReplacedBlock(after: seq<seq<Byte>>, before: seq<seq<Byte>>, base: nat, i: nat)
    requires Uniform(before, base) && i < |before| == |after|
    requires after == before[i := after[i]] && |after[i]| == |before[i]|
    ensures Uniform(after, base) && after[..i] == before[..i] && after[i + 1..] == before[i + 1..]
  {
  }

  /** Copying into one block copies into the same stretch of the flat array. */
  lemma FlattenCopied(after: seq<seq<Byte>>, before: seq<seq<Byte>>, base: nat, i: nat, at: nat, data: seq<Byte>,
                      from: nat, to: nat)
    requires Uniform(before, base) && i < |before| == |after|
    requires after == before[i := after[i]] && Copied(after[i], before[i], at, data, from, to)
    ensures Uniform(after, base) && Copied(Flatten(after), Flatten(before), Span(i, base) + at, data, from, to)
  {
    hide *;
    CopiedLength(after[i], before[i], at, data, from, to);
    ReplacedBlock(after, before, base, i);
    FlattenAround(before, base, i);
    FlattenAround(after, base, i);
    CopiedInside(Flatten(before[..i]), after[i], before[i], Flatten(before[i + 1..]), at, data, from, to);
  }

  lemma SliceInside(a: seq<Byte>, b: seq<Byte>, c: seq<Byte>, at: nat, n: nat)
    requires at + n <= |b|
    ensures (a + b + c)[|a| + at..|a| + at + n] == b[at..at + n]
  {
  }

  /** Reading inside one block reads the same stretch of the flat array. */
  lemma FlattenSlice(blocks: seq<seq<Byte>>, base: nat, i: nat, at: nat, n: nat)
    requires Uniform(blocks, base) && i < |blocks| && at + n <= base
    ensures Span(i, base) + at + n <= |Flatten(blocks)|
    ensures Flatten(blocks)[Span(i, base) + at..Span(i, base) + at + n] == blocks[i][at..at + n]
  {
    FlattenAround(blocks, base, i);
    SliceInside(Flatten(blocks[..i]), blocks[i], Flatten(blocks[i + 1..]), at, n);
  }

  /** More blocks leave the array before them as it is. */
  lemma FlattenGrown(blocks: seq<seq<Byte>>, more: seq<seq<Byte>>)
    requires blocks <= more
    ensures Flatten(blocks) <= Flatten(more)
  {
    FlattenConcat(blocks, more[|blocks|..]);
    assert more == blocks + more[|blocks|..];
  }

  lemma CopiedNone(s: seq<Byte>, at: nat, data: seq<Byte>, from: nat)
    requires at <= |s| && from <= |data|
    ensures Copied(s, s, at, data, from, from)
  {
  }

  /** Copying some bytes of `data` and then those after them. */
  lemma CopiedMore(last: seq<Byte>, mid: seq<Byte>, first: seq<Byte>, at: nat, data: seq<Byte>, from: nat, i: nat,
                   j: nat)
    requires Copied(mid, first, at, data, from, i) && Copied(last, mid, at + (i - from), data, i, j)
    ensures Copied(last, first, at, data, from, j)
  {
  }

  /** Copying out of one block copies that stretch of the flat array. */
  lemma CopiedFromBlock(after: seq<Byte>, before: seq<Byte>, to: nat, blocks: seq<seq<Byte>>, base: nat, i: nat,
                        at: nat, n: nat)
    requires Uniform(blocks, base) && i < |blocks| && Copied(after, before, to, blocks[i], at, at + n)
    ensures Copied(after, before, to, Flatten(blocks), Span(i, base) + at, Span(i, base) + at + n)
  {
    FlattenSlice(blocks, base, i, at, n);
    var flat, p := Flatten(blocks), Span(i, base) + at;
    forall k | 0 <= k < |after| ensures after[k] == if to <= k < to + n then flat[p + (k - to)] else before[k] {
      if to <= k < to + n {
        assert flat[p..p + n][k - to] == blocks[i][at..at + n][k - to];
      }
    }
  }

  /** What a buffer of `size` bytes holds after `data` is written at `at`: it overwrites, and extends past the end. */
  function Written(contents: seq<Byte>, at: nat, data: seq<Byte>): (r: seq<Byte>)
    requires at <= |contents|
  {
    contents[..at] + data + if at + |data| <= |contents| then contents[at + |data|..] else []
  }

  lemma CopiedWritten(after: seq<Byte>, before: seq<Byte>, size: nat, at: nat, data: seq<Byte>)
    requires at <= size <= |before| && Copied(after, before, at, data, 0, |data|)
    ensures after[..if at + |data| > size then at + |data| else size] == Written(before[..size], at, data)
  {
  }

  lemma WrittenAtEnd(contents: seq<Byte>, data: seq<Byte>)
    ensures Written(contents, |contents|, data) == contents + data
  {
  }
}
