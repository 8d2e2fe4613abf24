/** Tagging runes as begin, end, middle or single by the best hidden-Markov path (src/cppjieba/HMMSegment.hpp). */
module HMMSegment {
  import opened Unicode
  import opened DictTrie
  import opened Scores

  type Tag = y: nat | y < 4
  const B: Tag := 0
  const E: Tag := 1
  const M: Tag := 2
  const S: Tag := 3
  const STATUS_SUM: nat := 4

  datatype HMMModel = HMMModel(startProb: seq<real>, transProb: seq<seq<real>>, emitProb: seq<map<Rune, real>>) {
    predicate Valid() {
      |startProb| == 4 && |transProb| == 4 && |emitProb| == 4 && forall y: Tag :: |transProb[y]| == 4
    }

    /** A rune the tag never emits scores the floor. */
    function Emit(y: Tag, r: Rune): real
      requires Valid()
    {
      if r in emitProb[y] then emitProb[y][r] else MIN_DOUBLE
    }

    function Start(y: Tag, r: Rune): real
      requires Valid()
    {
      startProb[y] + Emit(y, r)
    }

    function Step(p: Tag, y: Tag, r: Rune): real
      requires Valid()
    {
      transProb[p][y] + Emit(y, r)
    }
  }

  // ---------- What is to be optimised ----------

  /** The score of tagging the first |tags| runes of `t`. */
  function Score(m: HMMModel, t: seq<Rune>, tags: seq<Tag>): real
    requires m.Valid() && 1 <= |tags| <= |t|
  {
    var k := |tags| - 1;
    if k == 0 then m.Start(tags[0], t[0])
    else Score(m, t, tags[..k]) + m.Step(tags[k - 1], tags[k], t[k])
  }

  /** `tags` end a word with their last rune and no tagging that does so scores higher. */
  ghost predicate BestTags(m: HMMModel, t: seq<Rune>, tags: seq<Tag>)
    requires m.Valid() && t != [] && |tags| == |t|
  {
    && tags[|t| - 1] in {E, S}
    && forall other: seq<Tag> :: |other| == |t| && other[|t| - 1] in {E, S} ==> Score(m, t, other) <= Score(m, t, tags)
  }

  /** Some tagging of t[..x + 1] that ends in `y` scores above the floor. */
  ghost predicate HasTaggingAbove(m: HMMModel, t: seq<Rune>, x: nat, y: Tag)
    requires m.Valid() && x < |t|
  {
    exists tags: seq<Tag> :: |tags| == x + 1 && tags[x] == y && Score(m, t, tags) > MIN_DOUBLE
  }

  /** No step out of tag `y` to rune `r` raises a score. */
  ghost predicate NoGain(m: HMMModel, y: Tag, r: Rune)
    requires m.Valid()
  {
    forall q: Tag :: m.Step(y, q, r) <= 0.0
  }

  /** The floor does not get in the way: one tagging that ends a word with the last rune scores above it, and no cell at
      the floor is left again. A single rune has no cell that starts at the floor. */
  ghost predicate FloorOutOfReach(m: HMMModel, t: seq<Rune>)
    requires m.Valid() && t != []
  {
    |t| == 1 ||
    (&& (HasTaggingAbove(m, t, |t| - 1, E) || HasTaggingAbove(m, t, |t| - 1, S))
     && forall x, y: Tag :: 1 <= x < |t| - 1 ==> NoGain(m, y, t[x + 1]) || HasTaggingAbove(m, t, x, y))
  }

  // ---------- The tables ----------

  /** The index of column `x`, row `y` in a flat table of four rows. */
  function Cell(x: nat, y: Tag, X: nat): (c: nat)
    requires x < X
    ensures c < 4 * X
  {
    CellRow(y, X);
    x + y * X
  }

  lemma CellRow(y: Tag, X: nat)
    ensures y * X == if y == 0 then 0 else if y == 1 then X else if y == 2 then X + X else X + X + X
  {
  }

  lemma CellDistinct(x: nat, y: Tag, a: nat, b: Tag, X: nat)
    requires x < X && a < X && Cell(x, y, X) == Cell(a, b, X)
    ensures x == a && y == b
  {
    CellRow(y, X);
    CellRow(b, X);
  }

  /** The score of reaching tag `y` at rune `x` from tag `p` in the column before. */
  function Via(m: HMMModel, t: seq<Rune>, weight: seq<real>, x: nat, y: Tag, p: Tag): real
    requires m.Valid() && 1 <= x < |t| && |weight| == 4 * |t|
  {
    weight[Cell(x - 1, p, |t|)] + m.transProb[p][y] + m.Emit(y, t[x])
  }

  /** One cell is right: its weight is the best way in, its back-pointer that way's tag; E if nothing beats the
      floor. */
  ghost predicate Settled(m: HMMModel, t: seq<Rune>, weight: seq<real>, path: seq<int>, x: nat, y: Tag)
    requires m.Valid() && x < |t| && |weight| == 4 * |t| && |path| == 4 * |t|
  {
    var w, p := weight[Cell(x, y, |t|)], path[Cell(x, y, |t|)];
    if x == 0 then w == m.Start(y, t[0])
    else
      && (forall q: Tag :: Via(m, t, weight, x, y, q) <= w)
      && 0 <= p < 4
      && ((w == MIN_DOUBLE && p == E) || (w > MIN_DOUBLE && w == Via(m, t, weight, x, y, p)))
  }

  ghost predicate Tables(m: HMMModel, t: seq<Rune>, weight: seq<real>, path: seq<int>)
    requires m.Valid()
  {
    && |weight| == 4 * |t| && |path| == 4 * |t|
    && forall x, y: Tag :: 0 <= x < |t| ==> Settled(m, t, weight, path, x, y)
  }

  /** `tags` follow the back-pointers from a last tag that is the better of E and S, and E for a tie. */
  ghost predicate Traced(m: HMMModel, t: seq<Rune>, weight: seq<real>, path: seq<int>, tags: seq<Tag>)
    requires m.Valid() && t != [] && Tables(m, t, weight, path) && |tags| == |t|
  {
    && (forall x {:trigger tags[x]} :: 1 <= x < |t| ==> tags[x - 1] as int == path[Cell(x, tags[x], |t|)])
    && tags[|t| - 1] == if weight[Cell(|t| - 1, E, |t|)] >= weight[Cell(|t| - 1, S, |t|)] then E else S
  }

  /** `tags` are what some right tables lead to. */
  ghost predicate TracedBack(m: HMMModel, t: seq<Rune>, tags: seq<Tag>)
    requires m.Valid() && t != [] && |tags| == |t|
  {
    exists weight: seq<real>, path: seq<int> :: Tables(m, t, weight, path) && Traced(m, t, weight, path, tags)
  }

  // ---------- Why the path read back is best ----------

  /** A cell bounds the score of every tagging that ends there, floor or not. */
  lemma {:induction false} TableBounds(m: HMMModel, t: seq<Rune>, weight: seq<real>, path: seq<int>, tags: seq<Tag>)
    requires m.Valid() && Tables(m, t, weight, path) && 1 <= |tags| <= |t|
    ensures Score(m, t, tags) <= weight[Cell(|tags| - 1, tags[|tags| - 1], |t|)]
    decreases |tags|
  {
    hide Cell;
    var x := |tags| - 1;
    var y := tags[x];
    assert Settled(m, t, weight, path, x, y);
    if x > 0 {
      TableBounds(m, t, weight, path, tags[..x]);
      assert Via(m, t, weight, x, y, tags[x - 1]) <= weight[Cell(x, y, |t|)];
    }
  }

  lemma AboveIsBounded(m: HMMModel, t: seq<Rune>, weight: seq<real>, path: seq<int>, x: nat, y: Tag)
    requires m.Valid() && x < |t| && Tables(m, t, weight, path) && HasTaggingAbove(m, t, x, y)
    ensures weight[Cell(x, y, |t|)] > MIN_DOUBLE
  {
    var above: seq<Tag> :| |above| == x + 1 && above[x] == y && Score(m, t, above) > MIN_DOUBLE;
    TableBounds(m, t, weight, path, above);
  }

  /** Read from the last rune back, no cell on the path is at the floor. */
  lemma {:induction false} TracedAbove(m: HMMModel, t: seq<Rune>, weight: seq<real>, path: seq<int>, tags: seq<Tag>,
                                       x: nat)
    requires m.Valid() && t != [] && Tables(m, t, weight, path) && FloorOutOfReach(m, t)
    requires |tags| == |t| && Traced(m, t, weight, path, tags) && 1 <= x < |t|
    ensures weight[Cell(x, tags[x], |t|)] > MIN_DOUBLE
    decreases |t| - x
  {
    hide Cell;
    var y := tags[x];
    if x == |t| - 1 {
      var e: Tag := if HasTaggingAbove(m, t, x, E) then E else S;
      AboveIsBounded(m, t, weight, path, x, e);
    } else if HasTaggingAbove(m, t, x, y) {
      AboveIsBounded(m, t, weight, path, x, y);
    } else {
      TracedAbove(m, t, weight, path, tags, x + 1);
      assert Settled(m, t, weight, path, x + 1, tags[x + 1]);
      assert tags[x] as int == path[Cell(x + 1, tags[x + 1], |t|)];
      assert NoGain(m, y, t[x + 1]) && m.Step(y, tags[x + 1], t[x + 1]) <= 0.0;
    }
  }

  /** A cell above the floor holds the score of the way in that its back-pointer names. */
  lemma AboveIsVia(m: HMMModel, t: seq<Rune>, weight: seq<real>, path: seq<int>, x: nat, p: Tag, y: Tag)
    requires m.Valid() && Tables(m, t, weight, path) && 1 <= x < |t|
    requires p as int == path[Cell(x, y, |t|)] && weight[Cell(x, y, |t|)] > MIN_DOUBLE
    ensures weight[Cell(x, y, |t|)] == weight[Cell(x - 1, p, |t|)] + m.Step(p, y, t[x])
  {
    hide Cell;
    assert Settled(m, t, weight, path, x, y);
  }

  lemma ScoreNext(m: HMMModel, t: seq<Rune>, before: seq<Tag>, y: Tag)
    requires m.Valid() && 1 <= |before| < |t|
    ensures Score(m, t, before + [y]) == Score(m, t, before) + m.Step(before[|before| - 1], y, t[|before|])
  {
    assert (before + [y])[..|before|] == before;
  }

  lemma TracedStep(m: HMMModel, t: seq<Rune>, weight: seq<real>, path: seq<int>, tags: seq<Tag>, x: nat)
    requires m.Valid() && t != [] && Tables(m, t, weight, path) && FloorOutOfReach(m, t)
    requires |tags| == |t| && Traced(m, t, weight, path, tags) && 1 <= x < |t|
    ensures weight[Cell(x, tags[x], |t|)] == weight[Cell(x - 1, tags[x - 1], |t|)] + m.Step(tags[x - 1], tags[x], t[x])
  {
    assert tags[x - 1] as int == path[Cell(x, tags[x], |t|)];
    TracedAbove(m, t, weight, path, tags, x);
    AboveIsVia(m, t, weight, path, x, tags[x - 1], tags[x]);
  }

  lemma FirstScore(m: HMMModel, t: seq<Rune>, weight: seq<real>, path: seq<int>, y: Tag)
    requires m.Valid() && t != [] && Tables(m, t, weight, path)
    ensures Score(m, t, [y]) == weight[Cell(0, y, |t|)]
  {
    assert Settled(m, t, weight, path, 0, y);
  }

  /** Each prefix of the traced tags scores exactly its cell. */
  lemma {:induction false} TracedScore(m: HMMModel, t: seq<Rune>, weight: seq<real>, path: seq<int>, tags: seq<Tag>,
                                       x: nat)
    requires m.Valid() && t != [] && Tables(m, t, weight, path) && FloorOutOfReach(m, t)
    requires |tags| == |t| && Traced(m, t, weight, path, tags) && x < |t|
    ensures Score(m, t, tags[..x + 1]) == weight[Cell(x, tags[x], |t|)]
    decreases x
  {
    hide *;
    if x == 0 {
      FirstScore(m, t, weight, path, tags[0]);
      assert tags[..1] == [tags[0]];
    } else {
      TracedStep(m, t, weight, path, tags, x);
      TracedScore(m, t, weight, path, tags, x - 1);
      ScoreNext(m, t, tags[..x], tags[x]);
      assert tags[..x + 1] == tags[..x] + [tags[x]];
    }
  }

  lemma TracedIsBest(m: HMMModel, t: seq<Rune>, weight: seq<real>, path: seq<int>, tags: seq<Tag>)
    requires m.Valid() && t != [] && Tables(m, t, weight, path) && FloorOutOfReach(m, t)
    requires |tags| == |t| && Traced(m, t, weight, path, tags)
    ensures BestTags(m, t, tags)
  {
    forall other: seq<Tag> | |other| == |t| && other[|t| - 1] in {E, S}
      ensures Score(m, t, other) <= Score(m, t, tags)
    {
      TracedBeats(m, t, weight, path, tags, other);
    }
  }

  lemma LastIsHigher(m: HMMModel, t: seq<Rune>, weight: seq<real>, path: seq<int>, tags: seq<Tag>, y: Tag)
    requires m.Valid() && t != [] && Tables(m, t, weight, path) && |tags| == |t| && Traced(m, t, weight, path, tags)
    requires y == E || y == S
    ensures weight[Cell(|t| - 1, y, |t|)] <= weight[Cell(|t| - 1, tags[|t| - 1], |t|)]
  {
    hide Cell, Settled;
  }

  lemma TracedBeats(m: HMMModel, t: seq<Rune>, weight: seq<real>, path: seq<int>, tags: seq<Tag>, other: seq<Tag>)
    requires m.Valid() && t != [] && Tables(m, t, weight, path) && FloorOutOfReach(m, t)
    requires |tags| == |t| && Traced(m, t, weight, path, tags)
    requires |other| == |t| && other[|t| - 1] in {E, S}
    ensures Score(m, t, other) <= Score(m, t, tags)
  {
    hide *;
    var last := |t| - 1;
    LastIsHigher(m, t, weight, path, tags, other[last]);
    TracedScore(m, t, weight, path, tags, last);
    assert tags[..last + 1] == tags;
    TableBounds(m, t, weight, path, other);
  }

  // ---------- When the floor is out of reach ----------

  /** Logarithms of probabilities. */
  ghost predicate LogScores(m: HMMModel)
    requires m.Valid()
  {
    && (forall y: Tag :: m.startProb[y] <= 0.0)
    && (forall p: Tag, y: Tag :: m.transProb[p][y] <= 0.0)
    && (forall y: Tag, r :: r in m.emitProb[y] ==> m.emitProb[y][r] <= 0.0)
  }

  /** A rune in none of the emission tables. */
  predicate Unknown(m: HMMModel, r: Rune)
    requires m.Valid()
  {
    r !in m.emitProb[B] && r !in m.emitProb[E] && r !in m.emitProb[M] && r !in m.emitProb[S]
  }

  /** A walk over entries of the model that are at least `lo` leads to tag `y` at rune `x`; it passes over unknown
      runes. */
  ghost predicate KnownWalk(m: HMMModel, t: seq<Rune>, lo: real, x: nat, y: Tag)
    requires m.Valid() && x < |t|
  {
    && (Unknown(m, t[x]) || (t[x] in m.emitProb[y] && m.emitProb[y][t[x]] >= lo))
    && if x == 0 then m.startProb[y] >= lo
       else exists p: Tag :: m.transProb[p][y] >= lo && KnownWalk(m, t, lo, x - 1, p)
  }

  /** How many of the first `n` runes are unknown. */
  function Unknowns(m: HMMModel, t: seq<Rune>, n: nat): nat
    requires m.Valid() && n <= |t|
  {
    if n == 0 then 0 else Unknowns(m, t, n - 1) + if Unknown(m, t[n - 1]) then 1 else 0
  }

  /** What a tagging of `n` runes loses along such a walk: the floor's score for an unknown rune and little else. */
  function Lost(m: HMMModel, t: seq<Rune>, lo: real, n: nat): real
    requires m.Valid() && n <= |t|
  {
    Multiple(MIN_DOUBLE, Unknowns(m, t, n)) + Multiple(lo, 2 * n)
  }

  lemma LostNext(m: HMMModel, t: seq<Rune>, lo: real, n: nat)
    requires m.Valid() && n < |t| && lo <= 0.0
    ensures Lost(m, t, lo, n + 1) <= Lost(m, t, lo, n) + lo + if Unknown(m, t[n]) then MIN_DOUBLE else lo
  {
    MultipleTwoMore(lo, 2 * n);
    var k := Unknowns(m, t, n);
    assert Multiple(MIN_DOUBLE, k + 1) == Multiple(MIN_DOUBLE, k) + MIN_DOUBLE;
  }

  lemma FirstWalked(m: HMMModel, t: seq<Rune>, lo: real, y: Tag)
    requires m.Valid() && t != [] && KnownWalk(m, t, lo, 0, y)
    ensures Lost(m, t, lo, 0) == 0.0 && Score(m, t, [y]) >= lo + if Unknown(m, t[0]) then MIN_DOUBLE else lo
  {
  }

  lemma WalkedFrom(m: HMMModel, t: seq<Rune>, lo: real, x: nat, y: Tag) returns (p: Tag)
    requires m.Valid() && 1 <= x < |t| && KnownWalk(m, t, lo, x, y)
    ensures KnownWalk(m, t, lo, x - 1, p) && m.Step(p, y, t[x]) >= lo + if Unknown(m, t[x]) then MIN_DOUBLE else lo
  {
    p :| m.transProb[p][y] >= lo && KnownWalk(m, t, lo, x - 1, p);
  }

  lemma {:induction false} WalkedTags(m: HMMModel, t: seq<Rune>, lo: real, x: nat, y: Tag) returns (tags: seq<Tag>)
    requires m.Valid() && lo <= 0.0 && x < |t| && KnownWalk(m, t, lo, x, y)
    ensures |tags| == x + 1 && tags[x] == y && Score(m, t, tags) >= Lost(m, t, lo, x + 1)
    decreases x
  {
    hide *;
    LostNext(m, t, lo, x);
    if x == 0 {
      tags := [y];
      FirstWalked(m, t, lo, y);
    } else {
      var p := WalkedFrom(m, t, lo, x, y);
      var before := WalkedTags(m, t, lo, x - 1, p);
      tags := before + [y];
      ScoreNext(m, t, before, y);
    }
  }

  /** No tagging avoids the floor's score for an unknown rune. */
  lemma {:induction false} ScoreUpTo(m: HMMModel, t: seq<Rune>, tags: seq<Tag>)
    requires m.Valid() && LogScores(m) && 1 <= |tags| <= |t|
    ensures Score(m, t, tags) <= Multiple(MIN_DOUBLE, Unknowns(m, t, |tags|))
    decreases |tags|
  {
    var x := |tags| - 1;
    if x > 0 {
      ScoreUpTo(m, t, tags[..x]);
      assert m.transProb[tags[x - 1]][tags[x]] <= 0.0;
    }
  }

  lemma {:induction false} NoUnknowns(m: HMMModel, t: seq<Rune>, n: nat)
    requires m.Valid() && n <= |t|
    ensures Unknowns(m, t, n) == 0 <==> forall x :: 0 <= x < n ==> !Unknown(m, t[x])
  {
    if n > 0 {
      NoUnknowns(m, t, n - 1);
    }
  }

  lemma LogScoresNoGain(m: HMMModel, y: Tag, r: Rune)
    requires m.Valid() && LogScores(m)
    ensures NoGain(m, y, r)
  {
    forall q: Tag ensures m.Step(y, q, r) <= 0.0 {
      assert m.transProb[y][q] <= 0.0;
    }
  }

  /** A caller's check: with logarithms for scores, one walk over known entries to the end of a word is enough,
      unless the text is absurdly long. */
  lemma KnownWalkIsAbove(m: HMMModel, t: seq<Rune>, lo: real, y: Tag)
    requires m.Valid() && LogScores(m) && t != [] && lo <= 0.0 && Multiple(lo, 2 * |t|) > MIN_DOUBLE
    requires y in {E, S} && KnownWalk(m, t, lo, |t| - 1, y) && forall r :: r in t ==> !Unknown(m, r)
    ensures FloorOutOfReach(m, t)
  {
    var tags := WalkedTags(m, t, lo, |t| - 1, y);
    NoUnknowns(m, t, |t|);
    assert HasTaggingAbove(m, t, |t| - 1, y);
    forall z: Tag, r: Rune ensures NoGain(m, z, r) {
      LogScoresNoGain(m, z, r);
    }
  }

  /** Entries above -1000, as logarithms of frequencies are, keep any text of up to 2^32 runes clear of the floor. */
  lemma OrdinaryIsAbove(m: HMMModel, t: seq<Rune>, y: Tag)
    requires m.Valid() && LogScores(m) && 1 <= |t| <= 0x1_0000_0000 && y in {E, S}
    requires KnownWalk(m, t, -1000.0, |t| - 1, y) && forall r :: r in t ==> !Unknown(m, r)
    ensures FloorOutOfReach(m, t)
  {
    FloorIsFar(2 * |t|);
    KnownWalkIsAbove(m, t, -1000.0, y);
  }

  lemma TracedBackIsBest(m: HMMModel, t: seq<Rune>, tags: seq<Tag>)
    requires m.Valid() && t != [] && |tags| == |t| && TracedBack(m, t, tags)
    ensures FloorOutOfReach(m, t) ==> BestTags(m, t, tags)
    ensures LogScores(m) && |t| <= 0x1_0000_0000 && (forall r :: r in t ==> !Unknown(m, r))
            && (KnownWalk(m, t, -1000.0, |t| - 1, E) || KnownWalk(m, t, -1000.0, |t| - 1, S))
        ==> BestTags(m, t, tags)
  {
    hide FloorOutOfReach, BestTags, KnownWalk, LogScores, Unknown, Tables, Traced;
    if LogScores(m) && |t| <= 0x1_0000_0000 && (forall r :: r in t ==> !Unknown(m, r)) {
      if KnownWalk(m, t, -1000.0, |t| - 1, E) {
        OrdinaryIsAbove(m, t, E);
      }
      if KnownWalk(m, t, -1000.0, |t| - 1, S) {
        OrdinaryIsAbove(m, t, S);
      }
    }
    if FloorOutOfReach(m, t) {
      var weight: seq<real>, path: seq<int> :| Tables(m, t, weight, path) && Traced(m, t, weight, path, tags);
      TracedIsBest(m, t, weight, path, tags);
    }
  }

  /** The score read directly off the tables of the model. */
  ghost function TableScore(m: HMMModel, t: seq<Rune>, tags: seq<Tag>): real
    requires m.Valid() && 1 <= |tags| <= |t| && forall k :: 0 <= k < |tags| ==> t[k] in m.emitProb[tags[k]]
  {
    var k := |tags| - 1;
    m.emitProb[tags[k]][t[k]]
    + if k == 0 then m.startProb[tags[0]] else m.transProb[tags[k - 1]][tags[k]] + TableScore(m, t, tags[..k])
  }

  /** For known runes the score is that sum. */
  lemma {:induction false} ScoreIsTableScore(m: HMMModel, t: seq<Rune>, tags: seq<Tag>)
    requires m.Valid() && 1 <= |tags| <= |t| && forall k :: 0 <= k < |tags| ==> t[k] in m.emitProb[tags[k]]
    ensures Score(m, t, tags) == TableScore(m, t, tags)
    decreases |tags|
  {
    if |tags| > 1 {
      ScoreIsTableScore(m, t, tags[..|tags| - 1]);
    }
  }

  /** An unknown rune floors its column and every later one, and their back-pointers all say E. */
  lemma {:induction false} UnknownFloors(m: HMMModel, t: seq<Rune>, weight: seq<real>, path: seq<int>, u: nat, x: nat,
                                         y: Tag)
    requires m.Valid() && LogScores(m) && Tables(m, t, weight, path) && u <= x < |t| && Unknown(m, t[u])
    ensures weight[Cell(x, y, |t|)] <= MIN_DOUBLE
    ensures x > 0 ==> weight[Cell(x, y, |t|)] == MIN_DOUBLE && path[Cell(x, y, |t|)] == E
    decreases x
  {
    hide Cell;
    assert Settled(m, t, weight, path, x, y);
    if x > 0 {
      forall q: Tag ensures Via(m, t, weight, x, y, q) <= MIN_DOUBLE {
        assert m.transProb[q][y] <= 0.0;
        if u < x {
          UnknownFloors(m, t, weight, path, u, x - 1, q);
        } else {
          WeightsNotPositive(m, t, weight, path, x - 1, q);
        }
      }
    }
  }

  lemma {:induction false} WeightsNotPositive(m: HMMModel, t: seq<Rune>, weight: seq<real>, path: seq<int>, x: nat,
                                              y: Tag)
    requires m.Valid() && LogScores(m) && Tables(m, t, weight, path) && x < |t|
    ensures weight[Cell(x, y, |t|)] <= 0.0
    decreases x
  {
    hide Cell;
    assert Settled(m, t, weight, path, x, y);
    if x > 0 {
      forall q: Tag ensures Via(m, t, weight, x, y, q) <= 0.0 {
        assert m.transProb[q][y] <= 0.0;
        WeightsNotPositive(m, t, weight, path, x - 1, q);
      }
    }
  }

  /** Tags that end in two E's, which no word does, are beaten by those of the walk. */
  lemma TwoEndsNotBest(m: HMMModel, t: seq<Rune>, lo: real, y: Tag, tags: seq<Tag>)
    requires m.Valid() && LogScores(m) && m.transProb[E][E] <= MIN_DOUBLE
    requires lo <= 0.0 && Multiple(lo, 2 * |t|) > MIN_DOUBLE
    requires |tags| == |t| > 1 && y in {E, S} && KnownWalk(m, t, lo, |t| - 1, y)
    requires tags[|t| - 1] == tags[|t| - 2] == E
    ensures !BestTags(m, t, tags)
  {
    var last := |t| - 1;
    var other := WalkedTags(m, t, lo, last, y);
    ScoreUpTo(m, t, tags[..last]);
    hide LogScores, KnownWalk;
    assert Score(m, t, tags) == Score(m, t, tags[..last]) + m.Step(E, E, t[last]);
    assert Score(m, t, tags) <= Multiple(MIN_DOUBLE, Unknowns(m, t, |t|)) + MIN_DOUBLE;
    assert Score(m, t, tags) < Score(m, t, other);
  }

  /** With an unknown rune in it a longer text is tagged with two E's at its end. */
  lemma UnknownNotBest(m: HMMModel, t: seq<Rune>, lo: real, y: Tag, weight: seq<real>, path: seq<int>, tags: seq<Tag>,
                       u: nat)
    requires m.Valid() && LogScores(m) && m.transProb[E][E] <= MIN_DOUBLE
    requires lo <= 0.0 && Multiple(lo, 2 * |t|) > MIN_DOUBLE
    requires |t| > 1 && y in {E, S} && KnownWalk(m, t, lo, |t| - 1, y)
    requires Tables(m, t, weight, path) && |tags| == |t| && Traced(m, t, weight, path, tags)
    requires u < |t| && Unknown(m, t[u])
    ensures tags[|t| - 1] == tags[|t| - 2] == E && !BestTags(m, t, tags)
  {
    hide Cell;
    var last := |t| - 1;
    UnknownFloors(m, t, weight, path, u, last, E);
    UnknownFloors(m, t, weight, path, u, last, S);
    hide LogScores, KnownWalk, Tables, BestTags;
    TwoEndsNotBest(m, t, lo, y, tags);
  }

  /** When the tags read back are best, for logarithms and a model in which no E follows an E, on texts that can be
      tagged along known entries apart from unknown runes: exactly if the text is one rune or every rune is known. */
  lemma BestExactlyIfKnown(m: HMMModel, t: seq<Rune>, lo: real, y: Tag, tags: seq<Tag>)
    requires m.Valid() && LogScores(m) && m.transProb[E][E] <= MIN_DOUBLE
    requires lo <= 0.0 && Multiple(lo, 2 * |t|) > MIN_DOUBLE
    requires t != [] && y in {E, S} && KnownWalk(m, t, lo, |t| - 1, y)
    requires |tags| == |t| && TracedBack(m, t, tags)
    ensures BestTags(m, t, tags) <==> |t| == 1 || forall r :: r in t ==> !Unknown(m, r)
  {
    var weight, path :| Tables(m, t, weight, path) && Traced(m, t, weight, path, tags);
    if |t| == 1 {
      TracedIsBest(m, t, weight, path, tags);
    } else if r :| r in t && Unknown(m, r) {
      var u :| 0 <= u < |t| && t[u] == r;
      UnknownNotBest(m, t, lo, y, weight, path, tags, u);
    } else {
      KnownWalkIsAbove(m, t, lo, y);
      TracedIsBest(m, t, weight, path, tags);
    }
  }

  /** The start and transition scores of the repository's model, with the emission scores of one rune. */
  function SmallModel(): (m: HMMModel)
    ensures m.Valid()
  {
    HMMModel(
      [-0.26268660809250016, MIN_DOUBLE, MIN_DOUBLE, -1.4652633398537678],
      [[MIN_DOUBLE, -0.510825623765990, -0.916290731874155, MIN_DOUBLE],
       [-0.5897149736854513, MIN_DOUBLE, MIN_DOUBLE, -0.8085250474669937],
       [MIN_DOUBLE, -0.33344856811948514, -1.2603623820268226, MIN_DOUBLE],
       [-0.7211965654669841, MIN_DOUBLE, MIN_DOUBLE, -0.6658631448798212]],
      [map[0x7684 := -8.392936], map[0x7684 := -6.412328], map[0x7684 := -7.241997], map[0x7684 := -2.240177]])
  }

  /** A known rune with an unknown one behind it is tagged E E, which is not best. */
  lemma UnknownRuneNotBest(r: Rune, tags: seq<Tag>)
    requires Unknown(SmallModel(), r) && |tags| == 2 && TracedBack(SmallModel(), [0x7684, r], tags)
    ensures tags == [E, E] && !BestTags(SmallModel(), [0x7684, r], tags)
  {
    var m, t: seq<Rune>, lo := SmallModel(), [0x7684, r], -20.0;
    var weight, path :| Tables(m, t, weight, path) && Traced(m, t, weight, path, tags);
    assert KnownWalk(m, t, lo, 0, S);
    assert m.transProb[S][S] >= lo && KnownWalk(m, t, lo, 1, S);
    UnknownNotBest(m, t, lo, S, weight, path, tags, 1);
  }

  // ---------- Cutting at tags ----------

  /** A word of the tagged run: it ends with an odd tag, E or S, and no other tag inside it is odd. */
  ghost predicate WordOfTags(w: WordRange, b: nat, tags: seq<Tag>) {
    && b <= w.left <= w.right < b + |tags|
    && tags[w.right - b] % 2 == 1
    && forall k :: w.left - b <= k < w.right - b ==> tags[k] % 2 == 0
  }

  ghost predicate CutByTags(ws: seq<WordRange>, b: nat, tags: seq<Tag>) {
    Tiles(ws, b, b + |tags|) && forall w :: w in ws ==> WordOfTags(w, b, tags)
  }

  /** The words of one run of non-ASCII runes. */
  ghost predicate RunCut(m: HMMModel, t: seq<Rune>, b: nat, ws: seq<WordRange>)
    requires m.Valid() && t != []
  {
    exists tags: seq<Tag> ::
      && |tags| == |t| && CutByTags(ws, b, tags) && TracedBack(m, t, tags)
      && (FloorOutOfReach(m, t) ==> BestTags(m, t, tags))
  }

  lemma {:induction false} TilesCover(ws: seq<WordRange>, lo: nat, hi: nat, k: nat) returns (w: WordRange)
    requires Tiles(ws, lo, hi) && lo <= k < hi
    ensures w in ws && w.left <= k <= w.right
    decreases |ws|
  {
    if k <= ws[0].right {
      w := ws[0];
    } else {
      w := TilesCover(ws[1..], ws[0].right + 1, hi, k);
    }
  }

  /** Where a run is cut: behind exactly the runes that are tagged E or S. */
  lemma RunCutMeaning(m: HMMModel, t: seq<Rune>, b: nat, ws: seq<WordRange>) returns (tags: seq<Tag>)
    requires m.Valid() && t != [] && RunCut(m, t, b, ws)
    ensures |tags| == |t| && TracedBack(m, t, tags) && (FloorOutOfReach(m, t) ==> BestTags(m, t, tags))
    ensures Tiles(ws, b, b + |t|)
    ensures forall k :: 0 <= k < |t| ==> ((exists w :: w in ws && w.right == b + k) <==> tags[k] == 1 || tags[k] == 3)
  {
    hide TracedBack, FloorOutOfReach, BestTags, Tiles;
    tags :| |tags| == |t| && CutByTags(ws, b, tags) && TracedBack(m, t, tags)
      && (FloorOutOfReach(m, t) ==> BestTags(m, t, tags));
    forall k | 0 <= k < |t| ensures (exists w :: w in ws && w.right == b + k) <==> tags[k] == 1 || tags[k] == 3 {
      var w := TilesCover(ws, b, b + |t|, b + k);
      assert WordOfTags(w, b, tags);
      if v :| v in ws && v.right == b + k {
        assert WordOfTags(v, b, tags);
      }
    }
  }

  // ---------- Letters and numbers ----------

  datatype Stretch = Letters | Numbers | NonAscii

  predicate IsLetter(x: Rune) { 0x61 <= x <= 0x7a || 0x41 <= x <= 0x5a }

  predicate IsDigit(x: Rune) { 0x30 <= x <= 0x39 }

  predicate Fits(s: Stretch, x: Rune) {
    match s
    case Letters => IsLetter(x) || IsDigit(x)
    case Numbers => IsDigit(x) || x == 0x2e
    case NonAscii => x >= 0x80
  }

  /** The end of the stretch from `i` on. */
  function StretchEnd(t: seq<Rune>, i: nat, e: nat, s: Stretch): (r: nat)
    requires i <= e <= |t|
    ensures i <= r <= e
    decreases e - i
  {
    if i < e && Fits(s, t[i]) then StretchEnd(t, i + 1, e, s) else i
  }

  /** The stretch is the longest: all of it fits and what follows does not. */
  lemma {:induction false} StretchLongest(t: seq<Rune>, i: nat, e: nat, s: Stretch)
    requires i <= e <= |t|
    ensures forall k :: i <= k < StretchEnd(t, i, e, s) ==> Fits(s, t[k])
    ensures StretchEnd(t, i, e, s) < e ==> !Fits(s, t[StretchEnd(t, i, e, s)])
    decreases e - i
  {
    if i < e && Fits(s, t[i]) {
      StretchLongest(t, i + 1, e, s);
    }
  }

  /** Where the segment that starts at `l` ends: a letter takes letters and digits, a digit takes digits and dots, any
      other ASCII rune stands alone, and a non-ASCII rune takes the whole non-ASCII run. */
  function SegmentEnd(t: seq<Rune>, l: nat, e: nat): (r: nat)
    requires l < e <= |t|
    ensures l < r <= e
  {
    if t[l] >= 0x80 then StretchEnd(t, l, e, NonAscii)
    else if IsLetter(t[l]) then StretchEnd(t, l + 1, e, Letters)
    else if IsDigit(t[l]) then StretchEnd(t, l + 1, e, Numbers)
    else l + 1
  }

  /** Where segments end, rune by rune: letters take the longest run of letters and digits behind them, digits that of
      digits and dots, other ASCII runes nothing, and a non-ASCII rune takes the longest run of its kind. */
  lemma SegmentEndMeaning(t: seq<Rune>, l: nat, e: nat)
    requires l < e <= |t|
    ensures l < SegmentEnd(t, l, e) <= e
    ensures 'a' as int <= t[l] <= 'z' as int || 'A' as int <= t[l] <= 'Z' as int ==>
              var r := SegmentEnd(t, l, e);
              && (forall k :: l < k < r ==>
                    || 'a' as int <= t[k] <= 'z' as int || 'A' as int <= t[k] <= 'Z' as int
                    || '0' as int <= t[k] <= '9' as int)
              && (r < e ==>
                    && !('a' as int <= t[r] <= 'z' as int) && !('A' as int <= t[r] <= 'Z' as int)
                    && !('0' as int <= t[r] <= '9' as int))
    ensures '0' as int <= t[l] <= '9' as int ==>
              var r := SegmentEnd(t, l, e);
              && (forall k :: l < k < r ==> '0' as int <= t[k] <= '9' as int || t[k] == '.' as int)
              && (r < e ==> !('0' as int <= t[r] <= '9' as int) && t[r] != '.' as int)
    ensures && t[l] < 0x80 && !('a' as int <= t[l] <= 'z' as int) && !('A' as int <= t[l] <= 'Z' as int)
            && !('0' as int <= t[l] <= '9' as int)
        ==> SegmentEnd(t, l, e) == l + 1
    ensures t[l] >= 0x80 ==>
              var r := SegmentEnd(t, l, e); (forall k :: l <= k < r ==> t[k] >= 0x80) && (r < e ==> t[r] < 0x80)
  {
    StretchLongest(t, l, e, NonAscii);
    StretchLongest(t, l + 1, e, Letters);
    StretchLongest(t, l + 1, e, Numbers);
  }

  /** A segment [left, right) of the text and the words it is cut into. */
  datatype Segment = Segment(left: nat, right: nat, words: seq<WordRange>)

  ghost predicate SegmentOk(m: HMMModel, t: seq<Rune>, e: nat, g: Segment)
    requires m.Valid() && e <= |t|
  {
    && g.left < e && g.right == SegmentEnd(t, g.left, e)
    && if t[g.left] < 0x80 then g.words == [WordRange(g.left, g.right - 1)]
       else RunCut(m, t[g.left..g.right], g.left, g.words)
  }

  /** Consecutive segments from `b` to `hi`. */
  ghost predicate Chain(segs: seq<Segment>, b: nat, hi: nat) {
    && (segs == [] ==> b == hi)
    && (segs != [] ==> segs[0].left == b && segs[|segs| - 1].right == hi)
    && (forall i :: 0 < i < |segs| ==> segs[i].left == segs[i - 1].right)
  }

  function Flatten(segs: seq<Segment>): seq<WordRange> {
    if segs == [] then [] else Flatten(segs[..|segs| - 1]) + segs[|segs| - 1].words
  }

  /** The words of [b, e): ASCII words by rule, the runs between them by best tags. */
  ghost predicate HmmCut(m: HMMModel, t: seq<Rune>, b: nat, e: nat, ws: seq<WordRange>)
    requires m.Valid() && e <= |t|
  {
    exists segs :: Chain(segs, b, e) && Flatten(segs) == ws && forall g :: g in segs ==> SegmentOk(m, t, e, g)
  }

  lemma SegmentTiles(m: HMMModel, t: seq<Rune>, e: nat, g: Segment)
    requires m.Valid() && e <= |t| && SegmentOk(m, t, e, g)
    ensures Tiles(g.words, g.left, g.right)
  {
    if t[g.left] < 0x80 {
      TilesSingle(g.left, g.right - 1);
    }
  }

  lemma {:induction false} SegmentsTile(m: HMMModel, t: seq<Rune>, b: nat, hi: nat, e: nat, segs: seq<Segment>)
    requires m.Valid() && e <= |t| && Chain(segs, b, hi) && forall g :: g in segs ==> SegmentOk(m, t, e, g)
    ensures Tiles(Flatten(segs), b, hi)
    decreases |segs|
  {
    if segs != [] {
      var last, before := segs[|segs| - 1], segs[..|segs| - 1];
      assert Chain(before, b, last.left);
      SegmentsTile(m, t, b, last.left, e, before);
      assert last in segs;
      SegmentTiles(m, t, e, last);
      TilesConcat(Flatten(before), last.words, b, last.left, hi);
    }
  }

  lemma HmmCutTiles(m: HMMModel, t: seq<Rune>, b: nat, e: nat, ws: seq<WordRange>)
    requires m.Valid() && e <= |t| && HmmCut(m, t, b, e, ws)
    ensures Tiles(ws, b, e)
  {
    var segs :| Chain(segs, b, e) && Flatten(segs) == ws && forall g :: g in segs ==> SegmentOk(m, t, e, g);
    SegmentsTile(m, t, b, e, e, segs);
  }

  /** The segments follow one another, an ASCII segment is one word, and any other is cut at its tags. */
  lemma HmmCutMeaning(m: HMMModel, t: seq<Rune>, b: nat, e: nat, ws: seq<WordRange>) returns (segs: seq<Segment>)
    requires m.Valid() && e <= |t| && HmmCut(m, t, b, e, ws)
    ensures Flatten(segs) == ws && if segs == [] then b == e else segs[0].left == b && segs[|segs| - 1].right == e
    ensures forall i :: 0 < i < |segs| ==> segs[i].left == segs[i - 1].right
    ensures forall g :: g in segs ==>
              && g.left < e && g.right == SegmentEnd(t, g.left, e)
              && (t[g.left] < 0x80 ==> g.words == [WordRange(g.left, g.right - 1)])
              && (t[g.left] >= 0x80 ==> RunCut(m, t[g.left..g.right], g.left, g.words))
  {
    segs :| Chain(segs, b, e) && Flatten(segs) == ws && forall g :: g in segs ==> SegmentOk(m, t, e, g);
    forall g | g in segs
      ensures && g.left < e && g.right == SegmentEnd(t, g.left, e)
              && (t[g.left] < 0x80 ==> g.words == [WordRange(g.left, g.right - 1)])
              && (t[g.left] >= 0x80 ==> RunCut(m, t[g.left..g.right], g.left, g.words))
    {
      assert SegmentOk(m, t, e, g);
    }
  }

  // ---------- The segmenter ----------

  class HMMSegment {
    const model: HMMModel

    constructor (model: HMMModel)
      requires model.Valid()
      ensures this.model == model
    {
      this.model := model;
    }

    /** The innermost loop: settles one cell of a later column in place. */
    method SettleCell(t: seq<Rune>, weight: array<real>, path: array<int>, x: nat, y: Tag)
      requires model.Valid() && 1 <= x < |t| && weight.Length == 4 * |t| && path.Length == 4 * |t|
      modifies weight, path
      ensures Settled(model, t, weight[..], path[..], x, y)
      ensures forall k :: 0 <= k < 4 * |t| && k != Cell(x, y, |t|) ==>
                weight[k] == old(weight[k]) && path[k] == old(path[k])
    {
      var X := |t|;
      var now, px := Cell(x, y, X), x - 1;
      forall q: Tag ensures Cell(px, q, X) != now {
        if Cell(px, q, X) == now { CellDistinct(px, q, x, y, X); }
      }
      weight[now] := MIN_DOUBLE;
      path[now] := E;
      var emitProb := model.Emit(y, t[x]);
      var preY: nat := 0;
      while preY < 4
        invariant 0 <= preY <= 4
        invariant forall k :: 0 <= k < 4 * X && k != now ==> weight[k] == old(weight[k]) && path[k] == old(path[k])
        invariant forall q: Tag :: q < preY ==> Via(model, t, weight[..], x, y, q) <= weight[now]
        invariant 0 <= path[now] < 4
        invariant || (weight[now] == MIN_DOUBLE && path[now] == E)
                  || (weight[now] > MIN_DOUBLE && weight[now] == Via(model, t, weight[..], x, y, path[now]))
      {
        var prev: Tag := preY;
        var before_ := Cell(px, prev, X);
        var tmp := weight[before_] + model.transProb[prev][y] + emitProb;
        ghost var before := weight[..];
        if tmp > weight[now] {
          weight[now] := tmp;
          path[now] := prev;
        }
        assert forall q: Tag :: Via(model, t, weight[..], x, y, q) == Via(model, t, before, x, y, q);
        preY := preY + 1;
      }
    }

    method Viterbi(t: seq<Rune>) returns (status: seq<Tag>)
      requires model.Valid() && t != []
      ensures |status| == |t| && status[|t| - 1] in {E, S} && TracedBack(model, t, status)
      ensures FloorOutOfReach(model, t) ==> BestTags(model, t, status)
      ensures LogScores(model) && |t| <= 0x1_0000_0000 && (forall r :: r in t ==> !Unknown(model, r))
              && (KnownWalk(model, t, -1000.0, |t| - 1, E) || KnownWalk(model, t, -1000.0, |t| - 1, S))
          ==> BestTags(model, t, status)
    {
      hide Settled, FloorOutOfReach, BestTags, KnownWalk, LogScores, Unknown;
      var X := |t|;
      var path, weight := new int[4 * X], new real[4 * X];
      FirstColumn(t, weight, path);
      var x := 1;
      while x < X
        invariant 1 <= x <= X
        invariant forall a, b: Tag :: 0 <= a < x ==> Settled(model, t, weight[..], path[..], a, b)
      {
        NextColumn(t, weight, path, x);
        x := x + 1;
      }
      status := ReadBack(t, weight, path);
      assert Tables(model, t, weight[..], path[..]);
      TracedBackIsBest(model, t, status);
    }

    method FirstColumn(t: seq<Rune>, weight: array<real>, path: array<int>)
      requires model.Valid() && t != [] && weight.Length == 4 * |t| && path.Length == 4 * |t|
      modifies weight, path
      ensures forall y: Tag :: Settled(model, t, weight[..], path[..], 0, y)
    {
      var y: nat := 0;
      while y < STATUS_SUM
        invariant y <= 4
        invariant forall b: Tag :: b < y ==> weight[Cell(0, b, |t|)] == model.Start(b, t[0])
      {
        var row: Tag := y;
        forall b: Tag | b < y ensures Cell(0, b, |t|) != Cell(0, row, |t|) {
          if Cell(0, b, |t|) == Cell(0, row, |t|) { CellDistinct(0, b, 0, row, |t|); }
        }
        weight[Cell(0, row, |t|)] := model.startProb[row] + model.Emit(row, t[0]);
        path[Cell(0, row, |t|)] := -1;
        y := y + 1;
      }
    }

    method NextColumn(t: seq<Rune>, weight: array<real>, path: array<int>, x: nat)
      requires model.Valid() && 1 <= x < |t| && weight.Length == 4 * |t| && path.Length == 4 * |t|
      requires forall a, b: Tag :: 0 <= a < x ==> Settled(model, t, weight[..], path[..], a, b)
      modifies weight, path
      ensures forall a, b: Tag :: 0 <= a <= x ==> Settled(model, t, weight[..], path[..], a, b)
    {
      var y: nat := 0;
      while y < STATUS_SUM
        invariant y <= 4
        invariant forall a, b: Tag :: 0 <= a < x || (a == x && b < y) ==> Settled(model, t, weight[..], path[..], a, b)
      {
        var row: Tag := y;
        ghost var weight0, path0 := weight[..], path[..];
        SettleCell(t, weight, path, x, row);
        forall a, b: Tag | 0 <= a < x || (a == x && b < y) ensures Settled(model, t, weight[..], path[..], a, b) {
          SettledStays(t, weight0, path0, weight[..], path[..], a, b, x, row);
        }
        y := y + 1;
      }
    }

    /** Cells of earlier columns, and of the same column, do not look at cell (x, y). */
    lemma SettledStays(t: seq<Rune>, weight: seq<real>, path: seq<int>, weight': seq<real>, path': seq<int>,
                       a: nat, b: Tag, x: nat, y: Tag)
      requires model.Valid() && a <= x < |t| && (a, b) != (x, y)
      requires |weight| == |weight'| == 4 * |t| && |path| == |path'| == 4 * |t|
      requires forall k :: 0 <= k < 4 * |t| && k != Cell(x, y, |t|) ==> weight[k] == weight'[k] && path[k] == path'[k]
      requires Settled(model, t, weight, path, a, b)
      ensures Settled(model, t, weight', path', a, b)
    {
      if Cell(a, b, |t|) == Cell(x, y, |t|) { CellDistinct(a, b, x, y, |t|); }
      if a > 0 {
        forall q: Tag ensures Via(model, t, weight', a, b, q) == Via(model, t, weight, a, b, q) {
          if Cell(a - 1, q, |t|) == Cell(x, y, |t|) { CellDistinct(a - 1, q, x, y, |t|); }
        }
      }
    }

    method ReadBack(t: seq<Rune>, weight: array<real>, path: array<int>) returns (status: seq<Tag>)
      requires model.Valid() && t != [] && Tables(model, t, weight[..], path[..])
      ensures |status| == |t| && Traced(model, t, weight[..], path[..], status)
    {
      var X := |t|;
      var endE, endS := weight[Cell(X - 1, E, X)], weight[Cell(X - 1, S, X)];
      var last := if endE >= endS then E else S;
      var stat: int := last;
      status := seq(X, _ => B);
      var x := X - 1;
      while x >= 0
        invariant -1 <= x < X && |status| == X
        invariant x >= 0 ==> 0 <= stat < 4
        invariant x < X - 1 ==> status[X - 1] == last
        invariant x == X - 1 ==> stat == last
        invariant forall k {:trigger status[k]} :: x + 1 < k < X ==> status[k - 1] as int == path[Cell(k, status[k], X)]
        invariant 0 <= x < X - 1 ==> stat == path[Cell(x + 1, status[x + 1], X)]
      {
        status := status[x := stat];
        var tag: Tag := stat;
        assert Settled(model, t, weight[..], path[..], x, tag);
        stat := path[Cell(x, tag, X)];
        x := x - 1;
      }
    }

    /** Appends the words of the run [b, e), which has no ASCII rune. */
    method InternalCut(t: seq<Rune>, b: nat, e: nat, res0: seq<WordRange>) returns (res: seq<WordRange>)
      requires model.Valid() && b < e <= |t|
      ensures res0 <= res && RunCut(model, t[b..e], b, res[|res0|..])
    {
      hide TracedBack, FloorOutOfReach, BestTags;
      var status := Viterbi(t[b..e]);
      res := res0;
      ghost var ws := [];
      var left := b;
      var i := 0;
      while i < |status|
        invariant 0 <= i <= |status| && b <= left <= b + i
        invariant res == res0 + ws && Tiles(ws, b, left)
        invariant forall w :: w in ws ==> WordOfTags(w, b, status)
        invariant forall k :: left - b <= k < i ==> status[k] % 2 == 0
        invariant i > 0 && status[i - 1] % 2 == 1 ==> left == b + i
      {
        if status[i] % 2 == 1 {
          var right := b + i + 1;
          TilesPush(ws, b, left, right - 1);
          ws := ws + [WordRange(left, right - 1)];
          res := res + [WordRange(left, right - 1)];
          left := right;
        }
        i := i + 1;
      }
      assert res[|res0|..] == ws;
      assert CutByTags(ws, b, status);
    }

    method SequentialLetterRule(t: seq<Rune>, b: nat, e: nat) returns (r: nat)
      requires b < e <= |t|
      ensures r == if IsLetter(t[b]) then StretchEnd(t, b + 1, e, Letters) else b
    {
      if !IsLetter(t[b]) {
        return b;
      }
      r := b + 1;
      while r != e
        invariant b < r <= e
        invariant StretchEnd(t, b + 1, e, Letters) == StretchEnd(t, r, e, Letters)
        decreases e - r
      {
        if IsLetter(t[r]) || IsDigit(t[r]) {
          r := r + 1;
        } else {
          break;
        }
      }
    }

    method NumbersRule(t: seq<Rune>, b: nat, e: nat) returns (r: nat)
      requires b < e <= |t|
      ensures r == if IsDigit(t[b]) then StretchEnd(t, b + 1, e, Numbers) else b
    {
      if !IsDigit(t[b]) {
        return b;
      }
      r := b + 1;
      while r != e
        invariant b < r <= e
        invariant StretchEnd(t, b + 1, e, Numbers) == StretchEnd(t, r, e, Numbers)
        decreases e - r
      {
        if IsDigit(t[r]) || t[r] == 0x2e {
          r := r + 1;
        } else {
          break;
        }
      }
    }

    /** The extent of the word an ASCII rune starts: the two rules in turn, else the rune alone. */
    method AsciiWordEnd(t: seq<Rune>, left: nat, e: nat) returns (right: nat)
      requires left < e <= |t| && t[left] < 0x80
      ensures right == SegmentEnd(t, left, e)
    {
      right := SequentialLetterRule(t, left, e);
      if right != left {
        return;
      }
      right := NumbersRule(t, left, e);
      if right != left {
        return;
      }
      right := right + 1;
    }

    /** The words so far are those of `segs`, which reach from `b` to `left`. */
    ghost predicate CutSoFar(t: seq<Rune>, b: nat, left: nat, e: nat, segs: seq<Segment>, ws: seq<WordRange>)
      requires model.Valid() && e <= |t|
    {
      Chain(segs, b, left) && Flatten(segs) == ws && forall g :: g in segs ==> SegmentOk(model, t, e, g)
    }

    lemma CutPush(t: seq<Rune>, b: nat, e: nat, segs: seq<Segment>, ws: seq<WordRange>, g: Segment)
      requires model.Valid() && e <= |t| && CutSoFar(t, b, g.left, e, segs, ws) && SegmentOk(model, t, e, g)
      ensures CutSoFar(t, b, g.right, e, segs + [g], ws + g.words)
    {
      assert (segs + [g])[..|segs|] == segs;
    }

    /** Appends the cut of [b, e). */
    method Cut(t: seq<Rune>, b: nat, e: nat, res0: seq<WordRange>) returns (res: seq<WordRange>)
      requires model.Valid() && b <= e <= |t|
      ensures res0 <= res && HmmCut(model, t, b, e, res[|res0|..])
    {
      res := res0;
      var left, right := b, b;
      ghost var segs: seq<Segment> := [];
      while right != e
        invariant b <= left <= right <= e
        invariant res0 <= res && CutSoFar(t, b, left, e, segs, res[|res0|..])
        invariant left < right ==> t[left] >= 0x80 && SegmentEnd(t, left, e) == StretchEnd(t, right, e, NonAscii)
        decreases e - right
      {
        if t[right] < 0x80 {
          if left != right {
            res, segs := AppendRun(t, b, left, right, e, res0, res, segs);
          }
          left := right;
          right := AsciiWordEnd(t, left, e);
          ghost var word := Segment(left, right, [WordRange(left, right - 1)]);
          CutPush(t, b, e, segs, res[|res0|..], word);
          assert (res + word.words)[|res0|..] == res[|res0|..] + word.words;
          segs := segs + [word];
          res := res + [WordRange(left, right - 1)];
          left := right;
        } else {
          right := right + 1;
        }
      }
      if left != right {
        res, segs := AppendRun(t, b, left, right, e, res0, res, segs);
      }
    }

    /** Appends the words of the run [left, right) as one more segment. */
    method AppendRun(t: seq<Rune>, b: nat, left: nat, right: nat, e: nat, ghost res0: seq<WordRange>,
                     res1: seq<WordRange>, ghost segs1: seq<Segment>)
      returns (res: seq<WordRange>, ghost segs: seq<Segment>)
      requires model.Valid() && left < right <= e <= |t| && t[left] >= 0x80 && right == SegmentEnd(t, left, e)
      requires res0 <= res1 && CutSoFar(t, b, left, e, segs1, res1[|res0|..])
      ensures res0 <= res && CutSoFar(t, b, right, e, segs, res[|res0|..])
    {
      res := InternalCut(t, left, right, res1);
      ghost var run := Segment(left, right, res[|res1|..]);
      CutPush(t, b, e, segs1, res1[|res0|..], run);
      assert res[|res0|..] == res1[|res0|..] + run.words;
      segs := segs1 + [run];
    }
  }
}
