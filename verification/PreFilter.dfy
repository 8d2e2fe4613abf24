/** Splitting a sentence at its separator runes (src/cppjieba/PreFilter.hpp). */
module PreFilter {
  import opened Bytes
  import opened Unicode

  /** The next range a cursor at `b` yields: one separator, or the longest separator-free stretch. */
  ghost predicate IsRange(sentence: seq<RuneStr>, symbols: set<Rune>, b: nat, e: nat) {
    && b <= e <= |sentence|
    && (b < |sentence| ==> b < e)
    && (b < |sentence| && sentence[b].rune in symbols ==> e == b + 1)
    && (b < |sentence| && sentence[b].rune !in symbols ==>
          && (forall k :: b <= k < e ==> sentence[k].rune !in symbols)
          && (e < |sentence| ==> sentence[e].rune in symbols))
  }

  class PreFilter {
    const symbols: set<Rune>
    const sentence: seq<RuneStr>
    var cursor: nat

    ghost predicate Valid()
      reads this
    {
      cursor <= |sentence|
    }

    /** A sentence that does not decode is logged and treated as empty. */
    constructor (symbols: set<Rune>, s: seq<Byte>)
      ensures Valid() && cursor == 0 && this.symbols == symbols
      ensures Decodable(s) ==> Consecutive(s, sentence, |s|) && HoldsRunes(s, sentence)
      ensures !Decodable(s) ==> sentence == []
    {
      var ok, runes := DecodeRunes(s);
      this.symbols := symbols;
      this.sentence := runes;
      this.cursor := 0;
    }

    predicate HasNext()
      reads this
    {
      cursor != |sentence|
    }

    method Next() returns (b: nat, e: nat)
      requires Valid()
      modifies this
      ensures Valid()
      ensures b == old(cursor) && e == cursor
      ensures IsRange(sentence, symbols, b, e)
    {
      b := cursor;
      while cursor != |sentence|
        invariant b <= cursor <= |sentence|
        invariant forall k :: b <= k < cursor ==> sentence[k].rune !in symbols
      {
        if sentence[cursor].rune in symbols {
          if b == cursor {
            cursor := cursor + 1;
          }
          e := cursor;
          return;
        }
        cursor := cursor + 1;
      }
      e := |sentence|;
    }
  }
}
