/** The dictionary: an index over its entries, each stored under its own word (src/cppjieba/DictTrie.hpp). */
module DictTrie {
  import opened Wrappers
  import opened Bytes
  import opened Unicode
  import opened Trie
  import opened Scores

  /** -3.14e+100, the score below every score that can arise. */
  const MIN_DOUBLE: real :=
    -31400000000000000000000000000000000000000000000000000000000000000000000000000000000000000000000000000.0

  const TEN_TO_20: real := 100000000000000000000.0

  /** The floor is what the original says it is, and nothing ordinary comes near it: logarithms of frequencies are far
      above -1000, and texts have fewer than 2^33 entries to add up. */
  lemma FloorIsFar(n: nat)
    requires n <= 0x2_0000_0000
    ensures MIN_DOUBLE == -3.14 * TEN_TO_20 * TEN_TO_20 * TEN_TO_20 * TEN_TO_20 * TEN_TO_20
    ensures Multiple(-1000.0, n) > MIN_DOUBLE
  {
    Thousands(n);
  }

  function Words(units: seq<DictUnit>): (ws: seq<seq<Rune>>)
    ensures |ws| == |units| && forall k :: 0 <= k < |ws| ==> ws[k] == units[k].word
  {
    seq(|units|, k requires 0 <= k < |units| => units[k].word)
  }

  /** Every entry is stored under its own word. */
  ghost predicate OwnWords(d: Dict) {
    forall k :: k in d ==> d[k].word == k && k != []
  }

  lemma {:induction false} BuildDictOwnWords(units: seq<DictUnit>, n: nat)
    requires n <= |units|
    ensures OwnWords(BuildDict(Words(units), units, n))
  {
    if n > 0 {
      BuildDictOwnWords(units, n - 1);
    }
  }

  /** In terms of the entries: each non-empty word is stored, with the last entry that has it. */
  lemma UnitsStored(units: seq<DictUnit>, d: Dict)
    requires Stores(d, Words(units), units)
    ensures forall k :: k in d <==> k != [] && exists u :: u in units && u.word == k
    ensures forall i :: 0 <= i < |units| && units[i].word != []
                        && (forall j :: i < j < |units| ==> units[j].word != units[i].word)
              ==> units[i].word in d && d[units[i].word] == units[i]
  {
    var ws := Words(units);
    forall k ensures k in ws <==> exists u :: u in units && u.word == k {
      if k in ws {
        var i :| 0 <= i < |ws| && ws[i] == k;
        assert units[i] in units && units[i].word == k;
      }
      if u :| u in units && u.word == k {
        var i :| 0 <= i < |units| && units[i] == u;
        assert ws[i] == k;
      }
    }
    forall i | 0 <= i < |units| && units[i].word != []
               && (forall j :: i < j < |units| ==> units[j].word != units[i].word)
      ensures units[i].word in d && d[units[i].word] == units[i]
    {
      assert ws[i] == units[i].word && ws[i] !in ws[i + 1..];
    }
  }

  class DictTrie {
    const trie: Trie
    const minWeight: real
    const userSingles: set<Rune>  // the user dictionary's one-rune words

    ghost predicate Valid()
      reads this, trie, trie.nodes.Values
    {
      trie.Valid() && OwnWords(trie.dict)
    }

    constructor (units: seq<DictUnit>, minWeight: real, userSingles: set<Rune>)
      requires |units| > 0
      ensures Valid() && fresh(trie) && fresh(trie.nodes.Values)
      ensures trie.dict == BuildDict(Words(units), units, |units|)
      ensures forall k :: k in trie.dict <==> k != [] && exists u :: u in units && u.word == k
      ensures forall i :: 0 <= i < |units| && units[i].word != []
                && (forall j :: i < j < |units| ==> units[j].word != units[i].word)
                ==> trie.dict[units[i].word] == units[i]
      ensures this.minWeight == minWeight && this.userSingles == userSingles
    {
      var words, values := [], [];
      var i := 0;
      while i < |units|
        invariant i <= |units|
        invariant words == Words(units)[..i] && values == units[..i]
      {
        words := words + [units[i].word];
        values := values + [units[i]];
        i := i + 1;
      }
      assert words == Words(units) && values == units;
      BuildDictOwnWords(units, |units|);
      this.trie := new Trie(words, values);
      this.minWeight := minWeight;
      this.userSingles := userSingles;
      new;
      UnitsStored(units, trie.dict);
    }

    /** A word that does not decode is refused; an accepted one replaces an entry of the same word. */
    method InsertUserWord(word: seq<Byte>, weight: real, tag: seq<Byte>) returns (ok: bool)
      requires Valid()
      modifies trie, trie.nodes.Values
      ensures Valid() && fresh(trie.nodes.Values - old(trie.nodes.Values))
      ensures ok == Decodable(word)
      ensures !ok || word == [] ==> trie.dict == old(trie.dict)
      ensures ok && word != [] ==> exists runes ::
        && Consecutive(word, runes, |word|) && HoldsRunes(word, runes)
        && trie.dict == old(trie.dict)[RunesOf(runes) := DictUnit(RunesOf(runes), weight, tag)]
    {
      var decoded, runes := DecodeRunes(word);
      if !decoded {
        return false;
      }
      trie.InsertNode(RunesOf(runes), DictUnit(RunesOf(runes), weight, tag));
      return true;
    }

    predicate IsUserDictSingleChineseWord(r: Rune) {
      r in userSingles
    }
  }
}
