/** UTF-8 decoding and the word ranges cut out of a decoded sentence (src/cppjieba/Unicode.hpp).
    A `RuneStrArray::const_iterator` is an index into the decoded sentence. */
module Unicode {
  import opened Bytes

  type Rune = r: int | 0 <= r < 0x1_0000_0000

  datatype RuneStrLite = RuneStrLite(rune: Rune, len: nat)
  datatype RuneStr = RuneStr(rune: Rune, offset: nat, len: nat, unicodeOffset: nat, unicodeLength: nat)

  /** The closed range [left, right] of rune indices. */
  datatype WordRange = WordRange(left: nat, right: nat)
  datatype Word = Word(word: seq<Byte>, offset: nat, unicodeOffset: nat, unicodeLength: nat)

  // ---------- Decoding one rune ----------

  /** The length the first byte announces, or 0 if `n` bytes do not hold that many. */
  function RuneLength(b: Byte, n: nat): (len: nat)
    requires n > 0
    ensures len <= n && len <= 4
  {
    if b < 0x80 then 1
    else if b <= 0xdf && 1 < n then 2
    else if b <= 0xef && 2 < n then 3
    else if b <= 0xf7 && 3 < n then 4
    else 0
  }

  /** The payload bits; a mask of k low bits is the remainder by 2^k. Continuation bytes are masked, not checked. */
  function RuneValue(s: seq<Byte>, len: nat): Rune
    requires 1 <= len <= 4 && len <= |s|
  {
    var b0: int := s[0];
    if len == 1 then b0 % 128
    else
      var b1: int := s[1];
      if len == 2 then b0 % 32 * 64 + b1 % 64
      else
        var b2: int := s[2];
        if len == 3 then (b0 % 16 * 64 + b1 % 64) * 64 + b2 % 64
        else
          var b3: int := s[3];
          ((b0 % 8 * 64 + b1 % 64) * 64 + b2 % 64) * 64 + b3 % 64
  }

  /** The first rune of `s`, or length 0 if there is none. */
  function DecodeRune(s: seq<Byte>): (r: RuneStrLite)
    ensures r.len <= |s| && r.len <= 4
  {
    if |s| == 0 || RuneLength(s[0], |s|) == 0 then RuneStrLite(0, 0)
    else RuneStrLite(RuneValue(s, RuneLength(s[0], |s|)), RuneLength(s[0], |s|))
  }

  /** How many bytes a rune takes, by its first byte alone; it takes none if they are not all there, or if the first
      byte announces no length. Continuation bytes are not told from leading ones. */
  lemma RuneLengths(s: seq<Byte>)
    requires s != []
    ensures DecodeRune(s).len == if s[0] < 0x80 then 1
                                 else if s[0] <= 0xdf then if |s| >= 2 then 2 else 0
                                 else if s[0] <= 0xef then if |s| >= 3 then 3 else 0
                                 else if s[0] <= 0xf7 then if |s| >= 4 then 4 else 0
                                 else 0
  {
  }

  /** The UTF-8 layout of a code point: section 3 of RFC 3629, extended to all 21 bits. */
  function EncodeRune(c: Rune): seq<Byte>
    requires c < 0x20_0000
  {
    if c < 0x80 then [c]
    else if c < 0x800 then [0xc0 + c / 64, 0x80 + c % 64]
    else if c < 0x1_0000 then [0xe0 + c / 4096, 0x80 + c / 64 % 64, 0x80 + c % 64]
    else [0xf0 + c / 262144, 0x80 + c / 4096 % 64, 0x80 + c / 64 % 64, 0x80 + c % 64]
  }

  lemma DecodeInvertsEncode(c: Rune, rest: seq<Byte>)
    requires c < 0x20_0000
    ensures DecodeRune(EncodeRune(c) + rest) == RuneStrLite(c, |EncodeRune(c)|)
  {
    var e := EncodeRune(c);
    var s := e + rest;
    PayloadInvertsEncode(c);
    assert s[0] == e[0];
    assert |e| > 1 ==> s[1] == e[1];
    assert |e| > 2 ==> s[2] == e[2];
    assert |e| > 3 ==> s[3] == e[3];
    assert RuneLength(s[0], |s|) == |e|;
    assert RuneValue(s, |e|) == RuneValue(e, |e|);
  }

  lemma PayloadInvertsEncode(c: Rune)
    requires c < 0x20_0000
    ensures var e := EncodeRune(c); RuneLength(e[0], |e|) == |e| && RuneValue(e, |e|) == c
  {
    SixBitDigits(c);
    if 0x1_0000 <= c {
      Payload4(c / 262144, c / 4096 % 64, c / 64 % 64, c % 64);
    } else if 0x800 <= c {
      Payload3(c / 4096, c / 64 % 64, c % 64);
    } else if 0x80 <= c {
      Payload2(c / 64, c % 64);
    }
  }

  lemma SixBitDigits(c: Rune)
    ensures c == c / 64 * 64 + c % 64
    ensures c == c / 4096 * 4096 + c / 64 % 64 * 64 + c % 64
    ensures c == c / 262144 * 262144 + c / 4096 % 64 * 4096 + c / 64 % 64 * 64 + c % 64
  {
    assert c / 64 / 64 == c / 4096;
    assert c / 4096 / 64 == c / 262144;
  }

  lemma Payload2(y: int, z: int)
    requires 0 <= y < 32 && 0 <= z < 64
    ensures RuneValue([0xc0 + y, 0x80 + z], 2) == y * 64 + z
  {
    assert (0xc0 + y) % 32 == y && (0x80 + z) % 64 == z;
  }

  lemma Payload3(x: int, y: int, z: int)
    requires 0 <= x < 16 && 0 <= y < 64 && 0 <= z < 64
    ensures RuneValue([0xe0 + x, 0x80 + y, 0x80 + z], 3) == x * 4096 + y * 64 + z
  {
    assert (0xe0 + x) % 16 == x && (0x80 + y) % 64 == y && (0x80 + z) % 64 == z;
  }

  lemma Payload4(w: int, x: int, y: int, z: int)
    requires 0 <= w < 8 && 0 <= x < 64 && 0 <= y < 64 && 0 <= z < 64
    ensures RuneValue([0xf0 + w, 0x80 + x, 0x80 + y, 0x80 + z], 4) == w * 262144 + x * 4096 + y * 64 + z
  {
    assert (0xf0 + w) % 8 == w && (0x80 + x) % 64 == x && (0x80 + y) % 64 == y && (0x80 + z) % 64 == z;
  }

  // ---------- Decoding a sentence ----------

  predicate Decodable(s: seq<Byte>, i: nat := 0)
    requires i <= |s|
    decreases |s| - i
  {
    i == |s| || (DecodeRune(s[i..]).len != 0 && Decodable(s, i + DecodeRune(s[i..]).len))
  }

  /** Where rune `k` starts in `s`; the end of `s` for `k == |runes|`. */
  function Offset(s: seq<Byte>, runes: seq<RuneStr>, k: nat): nat
    requires k <= |runes|
  {
    if k < |runes| then runes[k].offset else |s|
  }

  /** `runes` are consecutive runes of `s`, starting at byte 0 and ending at byte `end`. */
  ghost predicate Consecutive(s: seq<Byte>, runes: seq<RuneStr>, end: nat) {
    && end <= |s|
    && (|runes| == 0 ==> end == 0)
    && (|runes| > 0 ==> runes[0].offset == 0 && runes[|runes| - 1].offset + runes[|runes| - 1].len == end)
    && (forall k :: 0 < k < |runes| ==> runes[k].offset == runes[k - 1].offset + runes[k - 1].len)
    && (forall k :: 0 <= k < |runes| ==>
          && 0 < runes[k].len && runes[k].offset + runes[k].len <= end
          && runes[k].unicodeOffset == k && runes[k].unicodeLength == 1)
  }

  /** Each entry holds the rune that starts at its offset. */
  ghost predicate HoldsRunes(s: seq<Byte>, runes: seq<RuneStr>) {
    forall k :: 0 <= k < |runes| ==>
      runes[k].offset <= |s| && DecodeRune(s[runes[k].offset..]) == RuneStrLite(runes[k].rune, runes[k].len)
  }

  lemma ConsecutivePush(s: seq<Byte>, runes: seq<RuneStr>, i: nat, r: RuneStr)
    requires Consecutive(s, runes, i)
    requires r.offset == i && 0 < r.len && i + r.len <= |s| && r.unicodeOffset == |runes| && r.unicodeLength == 1
    ensures Consecutive(s, runes + [r], i + r.len)
  {
  }

  lemma HoldsPush(s: seq<Byte>, runes: seq<RuneStr>, r: RuneStr)
    requires HoldsRunes(s, runes)
    requires r.offset <= |s| && DecodeRune(s[r.offset..]) == RuneStrLite(r.rune, r.len)
    ensures HoldsRunes(s, runes + [r])
  {
  }

  method DecodeRunes(s: seq<Byte>) returns (ok: bool, runes: seq<RuneStr>)
    ensures ok == Decodable(s)
    ensures ok ==> Consecutive(s, runes, |s|) && HoldsRunes(s, runes)
    ensures !ok ==> runes == []
  {
    runes := [];
    assert Consecutive(s, runes, 0) && HoldsRunes(s, runes);
    hide Consecutive, HoldsRunes;
    var i, j := 0, 0;
    while i < |s|
      invariant i <= |s| && j == |runes|
      invariant Consecutive(s, runes, i) && HoldsRunes(s, runes)
      invariant Decodable(s) == Decodable(s, i)
    {
      var rp := DecodeRune(s[i..]);
      if rp.len == 0 {
        return false, [];
      }
      var r := RuneStr(rp.rune, i, rp.len, j, 1);
      ConsecutivePush(s, runes, i, r);
      HoldsPush(s, runes, r);
      runes := runes + [r];
      i := i + rp.len;
      j := j + 1;
    }
    return true, runes;
  }

  // ---------- Word ranges ----------

  /** `ws` cut the rune interval [lo, hi) into consecutive non-empty pieces. */
  ghost predicate Tiles(ws: seq<WordRange>, lo: nat, hi: nat)
    decreases |ws|
  {
    if ws == [] then lo == hi
    else ws[0].left == lo && lo <= ws[0].right < hi && Tiles(ws[1..], ws[0].right + 1, hi)
  }

  lemma {:induction false} TilesConcat(a: seq<WordRange>, b: seq<WordRange>, lo: nat, mid: nat, hi: nat)
    requires Tiles(a, lo, mid) && Tiles(b, mid, hi)
    ensures Tiles(a + b, lo, hi) && lo <= mid <= hi
    decreases |a| + |b|
  {
    if a == [] {
      assert a + b == b;
      if b != [] { TilesConcat([], b[1..], b[0].right + 1, b[0].right + 1, hi); }
    } else {
      TilesConcat(a[1..], b, a[0].right + 1, mid, hi);
      assert (a + b)[1..] == a[1..] + b;
    }
  }

  /** What is left of a tiling behind a tiling it starts with. */
  lemma {:induction false} TilesBehind(a: seq<WordRange>, b: seq<WordRange>, lo: nat, mid: nat, hi: nat)
    requires Tiles(a, lo, mid) && Tiles(a + b, lo, hi)
    ensures Tiles(b, mid, hi)
    decreases |a|
  {
    if a == [] {
      assert a + b == b;
    } else {
      assert (a + b)[1..] == a[1..] + b;
      TilesBehind(a[1..], b, a[0].right + 1, mid, hi);
    }
  }

  lemma TilesSingle(lo: nat, right: nat)
    requires lo <= right
    ensures Tiles([WordRange(lo, right)], lo, right + 1)
  {
    assert [WordRange(lo, right)][1..] == [];
  }

  /** Appending one range to a tiling. */
  lemma TilesPush(ws: seq<WordRange>, lo: nat, mid: nat, right: nat)
    requires Tiles(ws, lo, mid) && mid <= right
    ensures Tiles(ws + [WordRange(mid, right)], lo, right + 1)
  {
    TilesSingle(mid, right);
    TilesConcat(ws, [WordRange(mid, right)], lo, mid, right + 1);
  }

  lemma {:induction false} TilesBounds(ws: seq<WordRange>, lo: nat, hi: nat)
    requires Tiles(ws, lo, hi)
    ensures lo <= hi
    ensures forall w :: w in ws ==> lo <= w.left <= w.right < hi
    decreases |ws|
  {
    if ws != [] {
      TilesBounds(ws[1..], ws[0].right + 1, hi);
      assert ws == [ws[0]] + ws[1..];
    }
  }

  /** A tiling splits at any of its words. */
  lemma {:induction false} TilesSplit(ws: seq<WordRange>, lo: nat, hi: nat, i: nat) returns (mid: nat)
    requires Tiles(ws, lo, hi) && i <= |ws|
    ensures Tiles(ws[..i], lo, mid) && Tiles(ws[i..], mid, hi)
    ensures i < |ws| ==> mid == ws[i].left
    ensures i > 0 ==> mid == ws[i - 1].right + 1
    decreases |ws|
  {
    if i == 0 {
      mid := lo;
      assert ws[..0] == [] && ws[0..] == ws;
    } else {
      mid := TilesSplit(ws[1..], ws[0].right + 1, hi, i - 1);
      assert ws[..i][1..] == ws[1..][..i - 1] && ws[i..] == ws[1..][i - 1..];
    }
  }

  // ---------- From ranges to words ----------

  /** The word's bytes lie inside `s`. */
  predicate InSentence(s: seq<Byte>, runes: seq<RuneStr>, w: WordRange) {
    && w.left <= w.right < |runes|
    && runes[w.left].offset <= runes[w.right].offset
    && runes[w.right].offset + runes[w.right].len <= |s|
    && runes[w.left].unicodeOffset <= runes[w.right].unicodeOffset
  }

  function GetWordFromRunes(s: seq<Byte>, runes: seq<RuneStr>, w: WordRange): (r: Word)
    requires InSentence(s, runes, w)
    ensures |r.word| == runes[w.right].offset + runes[w.right].len - runes[w.left].offset
  {
    var left, right := runes[w.left], runes[w.right];
    var len := right.offset - left.offset + right.len;
    Word(s[left.offset..left.offset + len], left.offset, left.unicodeOffset,
         right.unicodeOffset - left.unicodeOffset + right.unicodeLength)
  }

  lemma {:induction false} OffsetsGrow(s: seq<Byte>, runes: seq<RuneStr>, i: nat, j: nat)
    requires Consecutive(s, runes, |s|) && i <= j <= |runes|
    ensures Offset(s, runes, i) <= Offset(s, runes, j) <= |s|
    ensures i < j ==> Offset(s, runes, i) < Offset(s, runes, j)
    ensures j < |runes| ==> Offset(s, runes, j + 1) == runes[j].offset + runes[j].len
    decreases j
  {
    if i < j {
      OffsetsGrow(s, runes, i, j - 1);
    }
  }

  function Concat(words: seq<Word>): seq<Byte> {
    if words == [] then [] else words[0].word + Concat(words[1..])
  }

  /** The words' own positions: each starts where the words before it end, in bytes and in runes. */
  ghost predicate Positioned(words: seq<Word>, offset: nat, unicodeOffset: nat)
    decreases |words|
  {
    words == [] ||
    (&& words[0].word != [] && words[0].unicodeLength > 0
     && words[0].offset == offset && words[0].unicodeOffset == unicodeOffset
     && Positioned(words[1..], offset + |words[0].word|, unicodeOffset + words[0].unicodeLength))
  }

  function WordsOf(s: seq<Byte>, runes: seq<RuneStr>, ws: seq<WordRange>): seq<Word>
    requires forall w :: w in ws ==> InSentence(s, runes, w)
  {
    if ws == [] then [] else [GetWordFromRunes(s, runes, ws[0])] + WordsOf(s, runes, ws[1..])
  }

  lemma RangesInSentence(s: seq<Byte>, runes: seq<RuneStr>, ws: seq<WordRange>, lo: nat, hi: nat)
    requires Consecutive(s, runes, |s|) && Tiles(ws, lo, hi) && hi <= |runes|
    ensures forall w :: w in ws ==> InSentence(s, runes, w)
  {
    TilesBounds(ws, lo, hi);
    forall w | w in ws ensures InSentence(s, runes, w) {
      OffsetsGrow(s, runes, w.left, w.right);
    }
  }

  lemma WordBytes(s: seq<Byte>, runes: seq<RuneStr>, w: WordRange)
    requires Consecutive(s, runes, |s|) && w.left <= w.right < |runes|
    ensures InSentence(s, runes, w)
    ensures Offset(s, runes, w.left) < Offset(s, runes, w.right + 1) <= |s|
    ensures GetWordFromRunes(s, runes, w)
      == Word(s[Offset(s, runes, w.left)..Offset(s, runes, w.right + 1)], Offset(s, runes, w.left),
              w.left, w.right + 1 - w.left)
  {
    OffsetsGrow(s, runes, w.left, w.right);
    OffsetsGrow(s, runes, w.left, w.right + 1);
  }

  lemma SlicesJoin(s: seq<Byte>, a: nat, b: nat, c: nat)
    requires a <= b <= c <= |s|
    ensures s[a..b] + s[b..c] == s[a..c]
  {
  }

  /** Cutting runes [lo, hi) into ranges and reading the words back gives exactly the bytes of [lo, hi). */
  lemma {:induction false} WordsLossless(s: seq<Byte>, runes: seq<RuneStr>, ws: seq<WordRange>, lo: nat, hi: nat)
    requires Consecutive(s, runes, |s|) && Tiles(ws, lo, hi) && hi <= |runes|
    ensures lo <= hi && Offset(s, runes, lo) <= Offset(s, runes, hi) <= |s|
    ensures forall w :: w in ws ==> InSentence(s, runes, w)
    ensures Concat(WordsOf(s, runes, ws)) == s[Offset(s, runes, lo)..Offset(s, runes, hi)]
    ensures Positioned(WordsOf(s, runes, ws), Offset(s, runes, lo), lo)
    decreases |ws|
  {
    TilesBounds(ws, lo, hi);
    OffsetsGrow(s, runes, lo, hi);
    RangesInSentence(s, runes, ws, lo, hi);
    if ws != [] {
      var mid := ws[0].right + 1;
      WordBytes(s, runes, ws[0]);
      WordsLossless(s, runes, ws[1..], mid, hi);
      var words := WordsOf(s, runes, ws);
      assert words[1..] == WordsOf(s, runes, ws[1..]);
      hide Consecutive, Tiles;
      SlicesJoin(s, Offset(s, runes, lo), Offset(s, runes, mid), Offset(s, runes, hi));
    }
  }

  /** The append loop; `words` is both input and output, as the C++ reference parameter is. */
  method GetWordsFromWordRanges(s: seq<Byte>, runes: seq<RuneStr>, wrs: seq<WordRange>, words0: seq<Word>)
    returns (words: seq<Word>)
    requires forall w :: w in wrs ==> InSentence(s, runes, w)
    ensures words == words0 + WordsOf(s, runes, wrs)
  {
    words := words0;
    var i := 0;
    while i < |wrs|
      invariant i <= |wrs|
      invariant words + WordsOf(s, runes, wrs[i..]) == words0 + WordsOf(s, runes, wrs)
    {
      words := words + [GetWordFromRunes(s, runes, wrs[i])];
      assert wrs[i..][1..] == wrs[i + 1..];
      i := i + 1;
    }
  }
}
