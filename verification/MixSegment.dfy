/** Dictionary segmentation whose leftover single runes are recut by the hidden-Markov segmenter
    (src/cppjieba/MixSegment.hpp). */
module MixSegment {
  import opened Bytes
  import opened Unicode
  import opened PreFilter
  import opened Trie
  import opened DictTrie
  import opened MPSegment
  import opened HMMSegment

  /** Words the dictionary cut settles: longer ones, and single runes of the user dictionary. */
  predicate Kept(t: seq<Rune>, userSingles: set<Rune>, w: WordRange)
    requires w.left < |t|
  {
    w.left != w.right || t[w.left] in userSingles
  }

  /** The end of the stretch of words from `i` on that are not kept. */
  function LooseEnd(t: seq<Rune>, userSingles: set<Rune>, words: seq<WordRange>, i: nat): (j: nat)
    requires i <= |words| && forall w :: w in words ==> w.left < |t|
    ensures i <= j <= |words|
    decreases |words| - i
  {
    if i < |words| && !Kept(t, userSingles, words[i]) then LooseEnd(t, userSingles, words, i + 1) else i
  }

  /** Words [left, right) of the dictionary cut and what replaces them: a kept word stays, a loose stretch is recut. */
  ghost predicate RecutOk(m: HMMModel, t: seq<Rune>, userSingles: set<Rune>, words: seq<WordRange>, g: Segment)
    requires m.Valid() && forall w :: w in words ==> w.left <= w.right < |t|
  {
    && g.left < g.right <= |words|
    && if Kept(t, userSingles, words[g.left]) then
         g.right == g.left + 1 && g.words == [words[g.left]]
       else
         g.right == LooseEnd(t, userSingles, words, g.left)
         && HmmCut(m, t, words[g.left].left, words[g.right - 1].left + 1, g.words)
  }

  /** `cut` is the dictionary cut `words` with every loose stretch recut. */
  ghost predicate Recut(m: HMMModel, t: seq<Rune>, userSingles: set<Rune>, words: seq<WordRange>, cut: seq<WordRange>)
    requires m.Valid() && forall w :: w in words ==> w.left <= w.right < |t|
  {
    exists segs :: Chain(segs, 0, |words|) && Flatten(segs) == cut
      && forall g :: g in segs ==> RecutOk(m, t, userSingles, words, g)
  }

  lemma {:induction false} LooseAreSingle(t: seq<Rune>, userSingles: set<Rune>, words: seq<WordRange>, i: nat)
    requires i <= |words| && forall w :: w in words ==> w.left < |t|
    ensures forall k :: i <= k < LooseEnd(t, userSingles, words, i) ==> words[k].left == words[k].right
    decreases |words| - i
  {
    if i < |words| && !Kept(t, userSingles, words[i]) {
      LooseAreSingle(t, userSingles, words, i + 1);
    }
  }

  /** What replaces words [g.left, g.right) covers exactly their runes. */
  lemma RecutPieceTiles(m: HMMModel, t: seq<Rune>, userSingles: set<Rune>, words: seq<WordRange>, g: Segment)
    requires m.Valid() && (forall w :: w in words ==> w.left <= w.right < |t|) && RecutOk(m, t, userSingles, words, g)
    ensures Tiles(g.words, words[g.left].left, words[g.right - 1].right + 1)
  {
    if Kept(t, userSingles, words[g.left]) {
      TilesSingle(words[g.left].left, words[g.left].right);
    } else {
      LooseAreSingle(t, userSingles, words, g.left);
      HmmCutTiles(m, t, words[g.left].left, words[g.right - 1].left + 1, g.words);
    }
  }

  lemma {:induction false} RecutsTile(m: HMMModel, t: seq<Rune>, userSingles: set<Rune>, words: seq<WordRange>,
                                      b: nat, e: nat, segs: seq<Segment>, n: nat)
    requires m.Valid() && (forall w :: w in words ==> w.left <= w.right < |t|) && Tiles(words, b, e)
    requires n <= |words| && Chain(segs, 0, n) && forall g :: g in segs ==> RecutOk(m, t, userSingles, words, g)
    ensures Tiles(Flatten(segs), b, if n < |words| then words[n].left else e)
    decreases |segs|
  {
    var mid := TilesSplit(words, b, e, n);
    if segs != [] {
      var last, before := segs[|segs| - 1], segs[..|segs| - 1];
      assert last in segs;
      assert Chain(before, 0, last.left);
      RecutsTile(m, t, userSingles, words, b, e, before, last.left);
      RecutPieceTiles(m, t, userSingles, words, last);
      TilesConcat(Flatten(before), last.words, b, words[last.left].left, mid);
    } else {
      assert words[..0] == [];
    }
  }

  lemma {:induction false} FlattenHas(segs: seq<Segment>, g: Segment, w: WordRange)
    requires g in segs && w in g.words
    ensures w in Flatten(segs)
    decreases |segs|
  {
    var last, before := segs[|segs| - 1], segs[..|segs| - 1];
    assert segs == before + [last];
    if g != last {
      FlattenHas(before, g, w);
    }
  }

  lemma {:induction false} ChainCovers(segs: seq<Segment>, hi: nat, k: nat) returns (g: Segment)
    requires Chain(segs, 0, hi) && k < hi && forall g :: g in segs ==> g.left < g.right
    ensures g in segs && g.left <= k < g.right
    decreases |segs|
  {
    var last, before := segs[|segs| - 1], segs[..|segs| - 1];
    assert segs == before + [last];
    if last.left <= k {
      g := last;
    } else {
      assert Chain(before, 0, last.left);
      g := ChainCovers(before, last.left, k);
    }
  }

  /** Every longer word of the dictionary cut, and every one-rune word of the user dictionary, is a word of the mixed
      cut. */
  lemma KeptWordsSurvive(m: HMMModel, t: seq<Rune>, userSingles: set<Rune>, words: seq<WordRange>,
                         cut: seq<WordRange>, k: nat)
    requires m.Valid() && (forall w :: w in words ==> w.left <= w.right < |t|)
    requires Recut(m, t, userSingles, words, cut) && k < |words|
    requires words[k].left < words[k].right || t[words[k].left] in userSingles
    ensures words[k] in cut
  {
    var segs :| Chain(segs, 0, |words|) && Flatten(segs) == cut
      && forall g :: g in segs ==> RecutOk(m, t, userSingles, words, g);
    var g := ChainCovers(segs, |words|, k);
    if !Kept(t, userSingles, words[g.left]) {
      LooseNotKept(t, userSingles, words, g.left, k);
    }
    FlattenHas(segs, g, words[k]);
  }

  lemma {:induction false} LooseNotKept(t: seq<Rune>, userSingles: set<Rune>, words: seq<WordRange>, i: nat, k: nat)
    requires (forall w :: w in words ==> w.left < |t|) && i <= k < |words| && k < LooseEnd(t, userSingles, words, i)
    ensures !Kept(t, userSingles, words[k])
    decreases k - i
  {
    if i < k {
      LooseNotKept(t, userSingles, words, i + 1, k);
    }
  }

  lemma FlattenPush(segs: seq<Segment>, g: Segment)
    ensures Flatten(segs + [g]) == Flatten(segs) + g.words && Flatten([]) == []
  {
    assert (segs + [g])[..|segs|] == segs;
  }

  lemma {:induction false} FlattenAround(before: seq<Segment>, g: Segment, after: seq<Segment>)
    ensures Flatten(before + [g] + after) == Flatten(before) + g.words + Flatten(after)
    decreases |after|
  {
    hide *;
    FlattenPush(before, g);
    if after == [] {
      assert before + [g] + after == before + [g];
    } else {
      var rest, last := after[..|after| - 1], after[|after| - 1];
      FlattenAround(before, g, rest);
      FlattenPush(before + [g] + rest, last);
      FlattenPush(rest, last);
      assert before + [g] + after == before + [g] + rest + [last];
      assert after == rest + [last];
    }
  }

  lemma {:induction false} LooseEndIs(t: seq<Rune>, userSingles: set<Rune>, words: seq<WordRange>, i: nat, j: nat)
    requires (forall w :: w in words ==> w.left < |t|) && i <= j <= |words|
    requires forall k :: i <= k < j ==> !Kept(t, userSingles, words[k])
    requires j < |words| ==> Kept(t, userSingles, words[j])
    ensures LooseEnd(t, userSingles, words, i) == j
    decreases j - i
  {
    if i < j {
      LooseEndIs(t, userSingles, words, i + 1, j);
    }
  }

  /** The piece that replaces a maximal loose run replaces exactly this run. */
  lemma LoosePiece(m: HMMModel, t: seq<Rune>, userSingles: set<Rune>, words: seq<WordRange>, cut: seq<WordRange>,
                   i: nat, j: nat)
    returns (segs: seq<Segment>, n: nat)
    requires m.Valid() && (forall w :: w in words ==> w.left <= w.right < |t|) && i < j <= |words|
    requires Recut(m, t, userSingles, words, cut)
    requires forall k :: i <= k < j ==> words[k].left == words[k].right && t[words[k].left] !in userSingles
    requires i > 0 ==> words[i - 1].left < words[i - 1].right || t[words[i - 1].left] in userSingles
    requires j < |words| ==> words[j].left < words[j].right || t[words[j].left] in userSingles
    ensures words[j - 1].left == words[j - 1].right
    ensures Chain(segs, 0, |words|) && Flatten(segs) == cut
    ensures forall g :: g in segs ==> RecutOk(m, t, userSingles, words, g)
    ensures n < |segs| && segs[n].left == i && segs[n].right == j
    ensures HmmCut(m, t, words[i].left, words[j - 1].left + 1, segs[n].words)
  {
    hide HmmCut, Flatten;
    segs :| Chain(segs, 0, |words|) && Flatten(segs) == cut
      && forall g :: g in segs ==> RecutOk(m, t, userSingles, words, g);
    var g := ChainCovers(segs, |words|, i);
    hide Chain;
    n :| 0 <= n < |segs| && segs[n] == g;
    assert RecutOk(m, t, userSingles, words, g);
    if g.left < i {
      LooseNotKept(t, userSingles, words, g.left, i - 1);
    }
    LooseEndIs(t, userSingles, words, i, j);
  }

  /** The runes [lo, hi) are cut by tagging, and what is before and behind them is cut up on its own. */
  ghost predicate RunRecut(m: HMMModel, t: seq<Rune>, cut: seq<WordRange>, b: nat, lo: nat, hi: nat, e: nat)
    requires m.Valid() && hi <= |t|
  {
    exists before: seq<WordRange>, run: seq<WordRange>, after: seq<WordRange> ::
      && cut == before + run + after && HmmCut(m, t, lo, hi, run)
      && Tiles(before, b, lo) && Tiles(after, hi, e)
  }

  lemma PieceIsRun(m: HMMModel, t: seq<Rune>, userSingles: set<Rune>, words: seq<WordRange>, b: nat, e: nat,
                   segs: seq<Segment>, n: nat)
    requires m.Valid() && (forall w :: w in words ==> w.left <= w.right < |t|) && Tiles(words, b, e)
    requires Chain(segs, 0, |words|) && forall g :: g in segs ==> RecutOk(m, t, userSingles, words, g)
    requires n < |segs| && segs[n].left < segs[n].right <= |words|
    ensures var g, before, after := segs[n], Flatten(segs[..n]), Flatten(segs[n + 1..]);
      && Flatten(segs) == before + g.words + after
      && Tiles(before, b, words[g.left].left) && Tiles(after, words[g.right - 1].right + 1, e)
  {
    var g, before, after := segs[n], segs[..n], segs[n + 1..];
    assert segs == before + [g] + after;
    FlattenAround(before, g, after);
    ChainPrefix(segs, n);
    hide Chain, RecutOk, Flatten;
    RecutsTile(m, t, userSingles, words, b, e, before, g.left);
    RecutsTile(m, t, userSingles, words, b, e, segs, |words|);
    RecutPieceTiles(m, t, userSingles, words, g);
    TilesConcat(Flatten(before), g.words, b, words[g.left].left, words[g.right - 1].right + 1);
    TilesBehind(Flatten(before) + g.words, Flatten(after), b, words[g.right - 1].right + 1, e);
  }

  /** Every maximal run of one-rune words that the user dictionary does not have is replaced by a tagging cut of exactly
      its runes. */
  lemma RunIsRecut(m: HMMModel, t: seq<Rune>, userSingles: set<Rune>, words: seq<WordRange>, cut: seq<WordRange>,
                   b: nat, e: nat, i: nat, j: nat)
    requires m.Valid() && (forall w :: w in words ==> w.left <= w.right < |t|) && Tiles(words, b, e)
    requires Recut(m, t, userSingles, words, cut) && i < j <= |words|
    requires forall k :: i <= k < j ==> words[k].left == words[k].right && t[words[k].left] !in userSingles
    requires i > 0 ==> words[i - 1].left < words[i - 1].right || t[words[i - 1].left] in userSingles
    requires j < |words| ==> words[j].left < words[j].right || t[words[j].left] in userSingles
    ensures RunRecut(m, t, cut, b, words[i].left, words[j - 1].left + 1, e)
  {
    hide *;
    var segs, n := LoosePiece(m, t, userSingles, words, cut, i, j);
    PieceIsRun(m, t, userSingles, words, b, e, segs, n);
    AroundRun(m, t, Flatten(segs[..n]), segs[n].words, Flatten(segs[n + 1..]), b, words[i].left, words[j - 1].left + 1,
              e);
  }

  lemma AroundRun(m: HMMModel, t: seq<Rune>, before: seq<WordRange>, run: seq<WordRange>, after: seq<WordRange>,
                  b: nat, lo: nat, hi: nat, e: nat)
    requires m.Valid() && hi <= |t| && HmmCut(m, t, lo, hi, run) && Tiles(before, b, lo) && Tiles(after, hi, e)
    ensures RunRecut(m, t, before + run + after, b, lo, hi, e)
  {
  }

  lemma ChainPrefix(segs: seq<Segment>, n: nat)
    requires n < |segs| && Chain(segs, 0, segs[|segs| - 1].right)
    ensures Chain(segs[..n], 0, segs[n].left)
  {
  }

  /** No word of two or more runes contains a separator. */
  ghost predicate SeparatorsAlone(runes: seq<RuneStr>, symbols: set<Rune>, ws: seq<WordRange>) {
    forall w, k :: w in ws && w.left < w.right && w.left <= k <= w.right && k < |runes| ==> runes[k].rune !in symbols
  }

  /** The words of a sentence: its runes cut into consecutive non-empty pieces, separators on their own. */
  ghost predicate SentenceCut(s: seq<Byte>, symbols: set<Rune>, words: seq<Word>) {
    exists runes: seq<RuneStr>, wrs: seq<WordRange> ::
      && Consecutive(s, runes, |s|) && HoldsRunes(s, runes)
      && Tiles(wrs, 0, |runes|) && SeparatorsAlone(runes, symbols, wrs)
      && (forall w :: w in wrs ==> InSentence(s, runes, w))
      && words == WordsOf(s, runes, wrs)
  }

  /** The words of a decodable sentence are non-empty, stand at their offsets, and concatenate to the sentence. */
  lemma SentenceCutLossless(s: seq<Byte>, symbols: set<Rune>, words: seq<Word>)
    requires SentenceCut(s, symbols, words)
    ensures Concat(words) == s
    ensures Positioned(words, 0, 0)
  {
    var runes: seq<RuneStr>, wrs: seq<WordRange> :|
      && Consecutive(s, runes, |s|) && HoldsRunes(s, runes)
      && Tiles(wrs, 0, |runes|) && SeparatorsAlone(runes, symbols, wrs)
      && (forall w :: w in wrs ==> InSentence(s, runes, w))
      && words == WordsOf(s, runes, wrs);
    WordsLossless(s, runes, wrs, 0, |runes|);
  }

  // ---------- From ranges to sentences ----------

  /** What the segmenter was built from: the dictionary's costs, its one-rune user words, the model, the separators. */
  datatype Rules = Rules(costs: Costs, userSingles: set<Rune>, model: HMMModel, symbols: set<Rune>)

  /** A dictionary cut of [b, e): legal pieces, and the heaviest ones if scores stay above the floor. */
  ghost predicate IsMpCut(c: Costs, sentence: seq<RuneStr>, b: nat, e: nat, words: seq<WordRange>)
    requires b <= e <= |sentence|
  {
    var t := RunesOf(sentence)[b..e];
    && Tiles(words, b, e)
    && (forall w :: w in words ==> w.left <= w.right < |sentence|)
    && SplitOk(c, t, 0, LengthsOf(words))
    && (SplitsAboveFloor(c, t) ==> Heaviest(c, t, 0, LengthsOf(words)))
    && (&& c.minWeight >= -1000.0
        && (forall k :: k in c.dict ==> c.dict[k].weight >= -1000.0 && |k| <= 512)
        && e - b <= 0x1_0000_0000
        ==> BestSplit(c.dict, c.minWeight, t, LengthsOf(words)))
  }

  /** The dictionary cut as it is, or with its loose stretches recut. */
  ghost predicate Finished(r: Rules, sentence: seq<RuneStr>, words: seq<WordRange>, cut: seq<WordRange>, hmm: bool)
    requires r.model.Valid() && forall w :: w in words ==> w.left <= w.right < |sentence|
  {
    if hmm then Recut(r.model, RunesOf(sentence), r.userSingles, words, cut) else words == cut
  }

  /** The words of one range: a dictionary cut, finished. */
  ghost predicate RangeCut(r: Rules, sentence: seq<RuneStr>, b: nat, e: nat, cut: seq<WordRange>, hmm: bool)
    requires r.model.Valid()
  {
    && b <= e <= |sentence| && Tiles(cut, b, e)
    && exists words :: IsMpCut(r.costs, sentence, b, e, words) && Finished(r, sentence, words, cut, hmm)
  }

  /** `wrs` are the cuts of the consecutive pre-filter ranges of [0, hi). */
  ghost predicate RangesCut(r: Rules, runes: seq<RuneStr>, hi: nat, ranges: seq<Segment>, wrs: seq<WordRange>,
                            hmm: bool)
    requires r.model.Valid()
  {
    && Chain(ranges, 0, hi) && Flatten(ranges) == wrs
    && forall g :: g in ranges ==>
         && g.left < g.right && IsRange(runes, r.symbols, g.left, g.right)
         && RangeCut(r, runes, g.left, g.right, g.words, hmm)
  }

  /** The words of a decodable sentence are the words of its ranges' cuts, in order. */
  ghost predicate CutOk(r: Rules, s: seq<Byte>, hmm: bool, words: seq<Word>)
    requires r.model.Valid()
  {
    exists runes, ranges ::
      && Consecutive(s, runes, |s|) && HoldsRunes(s, runes)
      && RangesCut(r, runes, |runes|, ranges, Flatten(ranges), hmm)
      && (forall w :: w in Flatten(ranges) ==> InSentence(s, runes, w))
      && words == WordsOf(s, runes, Flatten(ranges))
  }

  lemma RangesPush(r: Rules, runes: seq<RuneStr>, ranges: seq<Segment>, wrs: seq<WordRange>, g: Segment, hmm: bool)
    requires r.model.Valid() && RangesCut(r, runes, g.left, ranges, wrs, hmm)
    requires g.left < g.right && IsRange(runes, r.symbols, g.left, g.right)
    requires RangeCut(r, runes, g.left, g.right, g.words, hmm)
    ensures RangesCut(r, runes, g.right, ranges + [g], wrs + g.words, hmm)
  {
    assert (ranges + [g])[..|ranges|] == ranges;
  }

  lemma {:induction false} RangesTile(r: Rules, runes: seq<RuneStr>, hi: nat, ranges: seq<Segment>,
                                      wrs: seq<WordRange>, hmm: bool)
    requires r.model.Valid() && RangesCut(r, runes, hi, ranges, wrs, hmm)
    ensures Tiles(wrs, 0, hi) && SeparatorsAlone(runes, r.symbols, wrs)
    decreases |ranges|
  {
    if ranges != [] {
      var last, before := ranges[|ranges| - 1], ranges[..|ranges| - 1];
      assert last in ranges;
      assert Chain(before, 0, last.left);
      RangesTile(r, runes, last.left, before, Flatten(before), hmm);
      TilesConcat(Flatten(before), last.words, 0, last.left, hi);
      TilesBounds(last.words, last.left, hi);
    }
  }

  lemma {:induction false} ChainLefts(segs: seq<Segment>, b: nat, hi: nat)
    requires Chain(segs, b, hi) && forall g :: g in segs ==> g.left < g.right
    ensures forall g :: g in segs ==> b <= g.left && g.right <= hi
    ensures b <= hi
    decreases |segs|
  {
    if segs != [] {
      var last, before := segs[|segs| - 1], segs[..|segs| - 1];
      assert last in segs && Chain(before, b, last.left);
      ChainLefts(before, b, last.left);
      assert segs == before + [last];
    }
  }

  /** Where the pre-filter cuts: a range starts at a rune exactly if this rune or the one before it is a separator. */
  lemma {:induction false} RangesAtSymbols(runes: seq<RuneStr>, symbols: set<Rune>, ranges: seq<Segment>, hi: nat,
                                           k: nat)
    requires Chain(ranges, 0, hi) && hi <= |runes| && 0 < k < hi
    requires forall g :: g in ranges ==> g.left < g.right && IsRange(runes, symbols, g.left, g.right)
    ensures (exists g :: g in ranges && g.left == k) <==> runes[k].rune in symbols || runes[k - 1].rune in symbols
    decreases |ranges|
  {
    var last, before := ranges[|ranges| - 1], ranges[..|ranges| - 1];
    assert ranges == before + [last] && Chain(before, 0, last.left);
    ChainLefts(before, 0, last.left);
    if k == last.left {
      PreviousRange(ranges, hi);
      assert last in ranges && last.left == k;
    } else {
      hide Chain;
      assert forall g :: g in ranges ==> g in before || g == last;
      if k < last.left {
        hide IsRange;
        RangesAtSymbols(runes, symbols, before, last.left, k);
      }
    }
  }

  lemma PreviousRange(ranges: seq<Segment>, hi: nat)
    requires Chain(ranges, 0, hi) && ranges != [] && ranges[|ranges| - 1].left > 0
    ensures |ranges| > 1 && ranges[|ranges| - 2] in ranges && ranges[|ranges| - 2].right == ranges[|ranges| - 1].left
  {
  }

  /** The ranges of a cut do not depend on how they are cut: they start exactly at separators and behind them. */
  lemma CutAtSymbols(r: Rules, runes: seq<RuneStr>, ranges: seq<Segment>, wrs: seq<WordRange>, hmm: bool, k: nat)
    requires r.model.Valid() && RangesCut(r, runes, |runes|, ranges, wrs, hmm) && 0 < k < |runes|
    ensures (exists g :: g in ranges && g.left == k)
        <==> runes[k].rune in r.symbols || runes[k - 1].rune in r.symbols
  {
    hide Chain, IsRange, RangeCut;
    RangesAtSymbols(runes, r.symbols, ranges, |runes|, k);
  }

  /** A range is the best split of the dictionary, as it is without tagging and recut with it. */
  lemma RangeCutMeaning(r: Rules, sentence: seq<RuneStr>, b: nat, e: nat, cut: seq<WordRange>, hmm: bool)
    returns (words: seq<WordRange>)
    requires r.model.Valid() && RangeCut(r, sentence, b, e, cut, hmm)
    ensures b <= e <= |sentence| && Tiles(words, b, e)
    ensures forall w :: w in words ==> w.left <= w.right < |sentence|
    ensures r.costs.minWeight >= -1000.0 && e - b <= 0x1_0000_0000
            && (forall k :: k in r.costs.dict ==> r.costs.dict[k].weight >= -1000.0 && |k| <= 512)
        ==> BestSplit(r.costs.dict, r.costs.minWeight, RunesOf(sentence)[b..e], LengthsOf(words))
    ensures if hmm then Recut(r.model, RunesOf(sentence), r.userSingles, words, cut) else cut == words
  {
    words :| IsMpCut(r.costs, sentence, b, e, words) && Finished(r, sentence, words, cut, hmm);
  }

  lemma WholeSentence(s: seq<Byte>, runes: seq<RuneStr>, wrs: seq<WordRange>)
    requires Tiles(wrs, 0, |runes|)
    requires Decodable(s) ==> Consecutive(s, runes, |s|)
    requires !Decodable(s) ==> runes == []
    ensures forall w :: w in wrs ==> InSentence(s, runes, w)
    ensures !Decodable(s) ==> wrs == []
  {
    if Decodable(s) {
      RangesInSentence(s, runes, wrs, 0, |runes|);
    }
  }

  /** Whichever segmenter cut it, the sentence is cut into consecutive non-empty words, separators on their own. */
  lemma CutOkIsSentenceCut(r: Rules, s: seq<Byte>, hmm: bool, words: seq<Word>)
    requires r.model.Valid() && CutOk(r, s, hmm, words)
    ensures SentenceCut(s, r.symbols, words)
  {
    var runes, ranges :|
      && Consecutive(s, runes, |s|) && HoldsRunes(s, runes)
      && RangesCut(r, runes, |runes|, ranges, Flatten(ranges), hmm)
      && (forall w :: w in Flatten(ranges) ==> InSentence(s, runes, w))
      && words == WordsOf(s, runes, Flatten(ranges));
    RangesTile(r, runes, |runes|, ranges, Flatten(ranges), hmm);
  }

  class MixSegment {
    const mpSeg: MPSegment
    const hmmSeg: HMMSegment
    const symbols: set<Rune>

    constructor (dictTrie: DictTrie, model: HMMModel, symbols: set<Rune>)
      requires model.Valid()
      ensures mpSeg.dictTrie == dictTrie && hmmSeg.model == model && this.symbols == symbols
    {
      this.mpSeg := new MPSegment(dictTrie);
      this.hmmSeg := new HMMSegment(model);
      this.symbols := symbols;
    }

    ghost predicate Valid()
      reads mpSeg.dictTrie, mpSeg.dictTrie.trie, mpSeg.dictTrie.trie.nodes.Values
    {
      mpSeg.dictTrie.Valid() && hmmSeg.model.Valid()
    }

    ghost function RulesNow(): Rules
      reads mpSeg.dictTrie.trie
    {
      Rules(mpSeg.CostsFor(MAX_WORD_LENGTH), mpSeg.dictTrie.userSingles, hmmSeg.model, symbols)
    }

    predicate Loose(sentence: seq<RuneStr>, w: WordRange)
      requires w.left < |sentence|
    {
      w.left == w.right && !mpSeg.dictTrie.IsUserDictSingleChineseWord(sentence[w.left].rune)
    }

    /** The first words are replaced by `cut`, through the segments `segs`. */
    ghost predicate RecutSoFar(t: seq<Rune>, words: seq<WordRange>, i: nat, segs: seq<Segment>, cut: seq<WordRange>)
      requires hmmSeg.model.Valid() && forall w :: w in words ==> w.left <= w.right < |t|
    {
      Chain(segs, 0, i) && Flatten(segs) == cut
      && forall g :: g in segs ==> RecutOk(hmmSeg.model, t, mpSeg.dictTrie.userSingles, words, g)
    }

    lemma RecutPush(t: seq<Rune>, words: seq<WordRange>, segs: seq<Segment>, cut: seq<WordRange>, g: Segment)
      requires hmmSeg.model.Valid() && forall w :: w in words ==> w.left <= w.right < |t|
      requires RecutSoFar(t, words, g.left, segs, cut)
      requires RecutOk(hmmSeg.model, t, mpSeg.dictTrie.userSingles, words, g)
      ensures RecutSoFar(t, words, g.right, segs + [g], cut + g.words)
    {
      assert (segs + [g])[..|segs|] == segs;
    }

    /** Recuts the loose stretch that starts at word `i`, appending the result. */
    method RecutStretch(sentence: seq<RuneStr>, words: seq<WordRange>, b: nat, e: nat, i: nat, res0: seq<WordRange>)
      returns (res: seq<WordRange>, j: nat)
      requires Valid() && b <= e <= |sentence| && Tiles(words, b, e)
      requires forall w :: w in words ==> w.left <= w.right < |sentence|
      requires i < |words| && Loose(sentence, words[i])
      ensures i < j && res0 <= res
      ensures RecutOk(hmmSeg.model, RunesOf(sentence), mpSeg.dictTrie.userSingles, words, Segment(i, j, res[|res0|..]))
    {
      hide HmmCut, Tiles;
      var t := RunesOf(sentence);
      ghost var userSingles := mpSeg.dictTrie.userSingles;
      j := i;
      while j < |words| && Loose(sentence, words[j])
        invariant i <= j <= |words|
        invariant LooseEnd(t, userSingles, words, i) == LooseEnd(t, userSingles, words, j)
        invariant j == i ==> Loose(sentence, words[j])
      {
        j := j + 1;
      }
      LooseInOrder(words, b, e, i, j);
      var hmmRes := hmmSeg.Cut(t, words[i].left, words[j - 1].left + 1, []);
      assert hmmRes[0..] == hmmRes;
      res := res0;
      var k := 0;
      while k < |hmmRes|
        invariant k <= |hmmRes| && res == res0 + hmmRes[..k]
      {
        res := res + [hmmRes[k]];
        k := k + 1;
      }
      assert res[|res0|..] == hmmRes;
    }

    /** The loop that recuts the dictionary words of one range. */
    method RecutWords(sentence: seq<RuneStr>, words: seq<WordRange>, b: nat, e: nat, res0: seq<WordRange>)
      returns (res: seq<WordRange>)
      requires Valid() && b <= e <= |sentence| && Tiles(words, b, e)
      requires forall w :: w in words ==> w.left <= w.right < |sentence|
      ensures res0 <= res
      ensures Recut(hmmSeg.model, RunesOf(sentence), mpSeg.dictTrie.userSingles, words, res[|res0|..])
    {
      ghost var t := RunesOf(sentence);
      ghost var segs: seq<Segment> := [];
      res := res0;
      var i := 0;
      while i < |words|
        invariant i <= |words| && res0 <= res
        invariant RecutSoFar(t, words, i, segs, res[|res0|..])
      {
        ghost var start, before := i, res;
        if !Loose(sentence, words[i]) {
          res := res + [words[i]];
          i := i + 1;
        } else {
          res, i := RecutStretch(sentence, words, b, e, i, res);
        }
        ghost var g := Segment(start, i, res[|before|..]);
        RecutPush(t, words, segs, before[|res0|..], g);
        assert res[|res0|..] == before[|res0|..] + g.words;
        segs := segs + [g];
      }
    }

    lemma LooseInOrder(words: seq<WordRange>, b: nat, e: nat, i: nat, j: nat)
      requires Tiles(words, b, e) && i < j <= |words|
      ensures words[i].left <= words[j - 1].left + 1
    {
      var mid := TilesSplit(words, b, e, i);
      TilesBounds(words[i..], mid, e);
      assert words[j - 1] == words[i..][j - 1 - i];
    }

    /** Appends the cut of runes [b, e). */
    method CutRange(sentence: seq<RuneStr>, b: nat, e: nat, res0: seq<WordRange>, hmm: bool)
      returns (res: seq<WordRange>)
      requires Valid() && b <= e <= |sentence|
      ensures res0 <= res && RangeCut(RulesNow(), sentence, b, e, res[|res0|..], hmm)
    {
      ghost var r := RulesNow();
      if !hmm {
        res := mpSeg.Cut(sentence, b, e, res0, MAX_WORD_LENGTH);
        TilesBounds(res[|res0|..], b, e);
        assert IsMpCut(r.costs, sentence, b, e, res[|res0|..]);
        return;
      }
      var words := mpSeg.Cut(sentence, b, e, [], MAX_WORD_LENGTH);
      assert words[0..] == words;
      TilesBounds(words, b, e);
      assert IsMpCut(r.costs, sentence, b, e, words);
      res := RecutWords(sentence, words, b, e, res0);
      ghost var segs :| Chain(segs, 0, |words|) && Flatten(segs) == res[|res0|..]
        && forall g :: g in segs ==> RecutOk(r.model, RunesOf(sentence), r.userSingles, words, g);
      RecutsTile(r.model, RunesOf(sentence), r.userSingles, words, b, e, segs, |words|);
      assert Finished(r, sentence, words, res[|res0|..], hmm);
    }

    /** The loop over the ranges of the pre-filter. */
    method CutRanges(filter: PreFilter, hmm: bool) returns (wrs: seq<WordRange>, ghost ranges: seq<Segment>)
      requires Valid() && filter.Valid() && filter.cursor == 0 && filter.symbols == symbols
      modifies filter
      ensures Valid() && RulesNow() == old(RulesNow())
      ensures RangesCut(RulesNow(), filter.sentence, |filter.sentence|, ranges, wrs, hmm)
    {
      ghost var r := RulesNow();
      wrs, ranges := [], [];
      while filter.HasNext()
        invariant filter.Valid() && Valid() && RulesNow() == r
        invariant RangesCut(r, filter.sentence, filter.cursor, ranges, wrs, hmm)
        decreases |filter.sentence| - filter.cursor
      {
        var b, e := filter.Next();
        ghost var before := wrs;
        wrs := CutRange(filter.sentence, b, e, wrs, hmm);
        ghost var g := Segment(b, e, wrs[|before|..]);
        RangesPush(r, filter.sentence, ranges, before, g, hmm);
        ranges := ranges + [g];
      }
    }

    method Cut(s: seq<Byte>, hmm: bool) returns (words: seq<Word>)
      requires Valid()
      ensures Decodable(s) ==> CutOk(RulesNow(), s, hmm, words)
      ensures !Decodable(s) ==> words == []
    {
      var filter := new PreFilter(symbols, s);
      var wrs, ranges := CutRanges(filter, hmm);
      RangesTile(RulesNow(), filter.sentence, |filter.sentence|, ranges, wrs, hmm);
      WholeSentence(s, filter.sentence, wrs);
      words := GetWordsFromWordRanges(s, filter.sentence, wrs, []);
    }
  }

  /** What a caller gets from `Cut`: the words rebuild the sentence, and stand at their offsets in it, exactly when the
      sentence decodes. The size check of keyword extraction passes in the same cases. */
  lemma CutLossless(r: Rules, s: seq<Byte>, hmm: bool, words: seq<Word>)
    requires r.model.Valid()
    requires Decodable(s) ==> CutOk(r, s, hmm, words)
    requires !Decodable(s) ==> words == []
    ensures Concat(words) == s <==> Decodable(s)
    ensures |Concat(words)| == |s| <==> Decodable(s)
    ensures Decodable(s) ==> Positioned(words, 0, 0)
  {
    if Decodable(s) {
      CutOkIsSentenceCut(r, s, hmm, words);
      SentenceCutLossless(s, r.symbols, words);
    }
  }
}
