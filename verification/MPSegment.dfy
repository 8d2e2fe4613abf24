/** Maximum-weight dictionary segmentation (src/cppjieba/MPSegment.hpp). */
module MPSegment {
  import opened Wrappers
  import opened Unicode
  import opened Trie
  import opened DictTrie
  import opened Scores

  // ---------- What is to be optimised ----------

  /** The dictionary, the weight of a rune it does not contain, and the longest word considered. */
  datatype Costs = Costs(dict: Dict, minWeight: real, maxLen: nat)

  type Len = n: nat | n >= 1 witness 1

  /** A piece of a split: one rune, or a dictionary word of at most `maxLen` runes. */
  ghost predicate PieceOk(c: Costs, t: seq<Rune>, i: nat, len: nat) {
    1 <= len && i + len <= |t| && (len == 1 || (len <= c.maxLen && t[i..i + len] in c.dict))
  }

  function PieceWeight(c: Costs, t: seq<Rune>, i: nat, len: nat): real
    requires i + len <= |t|
  {
    if t[i..i + len] in c.dict then c.dict[t[i..i + len]].weight else c.minWeight
  }

  /** `lens` are the lengths of pieces that split t[i..]. */
  ghost predicate SplitOk(c: Costs, t: seq<Rune>, i: nat, lens: seq<Len>)
    decreases |lens|
  {
    if lens == [] then i == |t|
    else PieceOk(c, t, i, lens[0]) && SplitOk(c, t, i + lens[0], lens[1..])
  }

  ghost function SplitWeight(c: Costs, t: seq<Rune>, i: nat, lens: seq<Len>): real
    requires SplitOk(c, t, i, lens)
    decreases |lens|
  {
    if lens == [] then 0.0 else PieceWeight(c, t, i, lens[0]) + SplitWeight(c, t, i + lens[0], lens[1..])
  }

  /** No split of t[i..] is heavier, and those of equal weight do not start with a shorter piece. */
  ghost predicate Unbeaten(c: Costs, t: seq<Rune>, i: nat, lens: seq<Len>)
    requires SplitOk(c, t, i, lens) && lens != []
  {
    forall other :: SplitOk(c, t, i, other) ==>
      && SplitWeight(c, t, i, other) <= SplitWeight(c, t, i, lens)
      && (SplitWeight(c, t, i, other) == SplitWeight(c, t, i, lens) ==> other != [] && lens[0] <= other[0])
  }

  /** The split is unbeaten, and so is what follows each of its pieces. */
  ghost predicate Heaviest(c: Costs, t: seq<Rune>, i: nat, lens: seq<Len>)
    requires SplitOk(c, t, i, lens)
    decreases |lens|
  {
    lens == [] || (Unbeaten(c, t, i, lens) && Heaviest(c, t, i + lens[0], lens[1..]))
  }

  /** Every rest of the text has some split above the floor. */
  ghost predicate SplitsAboveFloor(c: Costs, t: seq<Rune>) {
    forall i :: 0 <= i < |t| ==> HasSplitAbove(c, t, i)
  }

  ghost predicate HasSplitAbove(c: Costs, t: seq<Rune>, i: nat) {
    exists lens :: SplitOk(c, t, i, lens) && SplitWeight(c, t, i, lens) > MIN_DOUBLE
  }

  // ---------- The dynamic program ----------

  /** The weight of following edge `e` out of the dynamic program's table. */
  function EdgeValue(dags: seq<Dag>, e: Edge, minWeight: real): real {
    (if e.nextPos + 1 < |dags| then dags[e.nextPos + 1].weight else 0.0)
    + (if e.unit.Some? then e.unit.value.weight else minWeight)
  }

  /** Edge `k` of `es` is the first of the heaviest, and above the floor. */
  predicate FirstBest(dags: seq<Dag>, es: seq<Edge>, k: nat, minWeight: real, pInfo: Option<DictUnit>, weight: real) {
    && k < |es| && pInfo == es[k].unit && weight == EdgeValue(dags, es[k], minWeight) && weight > MIN_DOUBLE
    && (forall a :: 0 <= a < |es| ==> EdgeValue(dags, es[a], minWeight) <= weight)
    && (forall a :: 0 <= a < k ==> EdgeValue(dags, es[a], minWeight) < weight)
  }

  /** No edge of `es` is above the floor. */
  predicate Floored(dags: seq<Dag>, es: seq<Edge>, minWeight: real, pInfo: Option<DictUnit>, weight: real) {
    && pInfo == None && weight == MIN_DOUBLE
    && (forall a :: 0 <= a < |es| ==> EdgeValue(dags, es[a], minWeight) <= MIN_DOUBLE)
  }

  ghost predicate Settled(dags: seq<Dag>, i: nat, minWeight: real)
    requires i < |dags|
  {
    var d := dags[i];
    || Floored(dags, d.nexts, minWeight, d.pInfo, d.weight)
    || exists k: nat :: FirstBest(dags, d.nexts, k, minWeight, d.pInfo, d.weight)
  }

  /** How far `CutByDag` advances. */
  function StepLength(d: Dag): Len
  {
    if d.pInfo.Some? && |d.pInfo.value.word| >= 1 then |d.pInfo.value.word| else 1
  }

  function PathFrom(dags: seq<Dag>, i: nat): seq<Len>
    decreases |dags| - i
  {
    if i >= |dags| then [] else [StepLength(dags[i])] + PathFrom(dags, i + StepLength(dags[i]))
  }

  function RangesOf(b: nat, lens: seq<Len>): seq<WordRange>
    decreases |lens|
  {
    if lens == [] then []
    else [WordRange(b, b + lens[0] - 1)] + RangesOf(b + lens[0], lens[1..])
  }

  function LengthsOf(ws: seq<WordRange>): seq<Len>
    requires forall w :: w in ws ==> w.left <= w.right
  {
    if ws == [] then [] else [ws[0].right - ws[0].left + 1] + LengthsOf(ws[1..])
  }

  lemma {:induction false} RangesRoundTrip(c: Costs, t: seq<Rune>, i: nat, b: nat, lens: seq<Len>)
    requires SplitOk(c, t, i, lens)
    ensures var ws := RangesOf(b + i, lens);
      i <= |t| && Tiles(ws, b + i, b + |t|) && (forall w :: w in ws ==> w.left <= w.right) && LengthsOf(ws) == lens
    decreases |lens|
  {
    if lens != [] {
      RangesRoundTrip(c, t, i + lens[0], b, lens[1..]);
      var ws := RangesOf(b + i, lens);
      assert ws[1..] == RangesOf(b + i + lens[0], lens[1..]);
      TilesBounds(ws, b + i, b + |t|);
    }
  }

  // ---------- Why the table is right ----------

  /** The table the index search fills in and the dynamic program settles. */
  ghost predicate SolvedTable(c: Costs, t: seq<Rune>, dags: seq<Dag>) {
    && |dags| == |t| && OwnWords(c.dict)
    && (forall i :: 0 <= i < |t| ==> dags[i].nexts == Edges(c.dict, t, i, c.maxLen))
    && (forall i :: 0 <= i < |t| ==> Settled(dags, i, c.minWeight))
  }

  /** The edge of a piece, and what it is worth. */
  lemma PieceHasEdge(c: Costs, t: seq<Rune>, dags: seq<Dag>, i: nat, len: nat)
    requires SolvedTable(c, t, dags) && PieceOk(c, t, i, len)
    ensures i < |t|
    ensures exists a :: 0 <= a < |dags[i].nexts| && dags[i].nexts[a].nextPos == i + len - 1
    ensures forall a :: 0 <= a < |dags[i].nexts| && dags[i].nexts[a].nextPos == i + len - 1 ==>
      EdgeValue(dags, dags[i].nexts[a], c.minWeight)
      == PieceWeight(c, t, i, len) + (if i + len < |t| then dags[i + len].weight else 0.0)
  {
    EdgesExact(c.dict, t, i, c.maxLen);
    var e := Edge(i + len - 1, Lookup(c.dict, t[i..i + len]));
    assert IsEdge(c.dict, t, i, c.maxLen, e);
    assert e in dags[i].nexts;
    forall a | 0 <= a < |dags[i].nexts| && dags[i].nexts[a].nextPos == i + len - 1
      ensures dags[i].nexts[a] == e
    {
      assert dags[i].nexts[a] in dags[i].nexts;
      assert IsEdge(c.dict, t, i, c.maxLen, dags[i].nexts[a]);
    }
  }

  /** The table's weight at `i` bounds every split of t[i..], floor or not. */
  lemma {:induction false} TableBounds(c: Costs, t: seq<Rune>, dags: seq<Dag>, i: nat, lens: seq<Len>)
    requires SolvedTable(c, t, dags) && i < |t| && SplitOk(c, t, i, lens)
    ensures SplitWeight(c, t, i, lens) <= dags[i].weight
    ensures lens != []
    ensures forall a :: 0 <= a < |dags[i].nexts| && dags[i].nexts[a].nextPos == i + lens[0] - 1 ==>
      SplitWeight(c, t, i, lens) <= EdgeValue(dags, dags[i].nexts[a], c.minWeight)
    decreases |lens|
  {
    var next := i + lens[0];
    PieceHasEdge(c, t, dags, i, lens[0]);
    if next < |t| {
      TableBounds(c, t, dags, next, lens[1..]);
    } else {
      assert lens[1..] == [];
    }
    assert Settled(dags, i, c.minWeight);
  }

  /** An edge of the table is a piece: its unit is the dictionary's answer for the runes it covers. */
  lemma EdgeIsPiece(c: Costs, t: seq<Rune>, dags: seq<Dag>, i: nat, k: nat)
    requires SolvedTable(c, t, dags) && i < |t| && k < |dags[i].nexts|
    ensures var e := dags[i].nexts[k];
      i <= e.nextPos < |t| && e.unit == Lookup(c.dict, t[i..e.nextPos + 1]) && PieceOk(c, t, i, e.nextPos + 1 - i)
      && (e.unit.None? ==> e.nextPos == i)
    ensures forall a :: 0 <= a < |dags[i].nexts| && dags[i].nexts[a].nextPos < dags[i].nexts[k].nextPos ==> a < k
  {
    EdgesExact(c.dict, t, i, c.maxLen);
    assert dags[i].nexts[k] in dags[i].nexts;
    assert IsEdge(c.dict, t, i, c.maxLen, dags[i].nexts[k]);
  }

  /** The step `CutByDag` takes from `i` is a legal piece; above the floor it is the shortest of the best. */
  lemma StepIsPiece(c: Costs, t: seq<Rune>, dags: seq<Dag>, i: nat)
    requires SolvedTable(c, t, dags) && i < |t|
    ensures PieceOk(c, t, i, StepLength(dags[i]))
    ensures dags[i].weight > MIN_DOUBLE ==>
      dags[i].weight == PieceWeight(c, t, i, StepLength(dags[i]))
        + (if i + StepLength(dags[i]) < |t| then dags[i + StepLength(dags[i])].weight else 0.0)
    ensures dags[i].weight > MIN_DOUBLE ==>
      forall a :: 0 <= a < |dags[i].nexts| && dags[i].nexts[a].nextPos < i + StepLength(dags[i]) - 1 ==>
        EdgeValue(dags, dags[i].nexts[a], c.minWeight) < dags[i].weight
  {
    var d := dags[i];
    assert Settled(dags, i, c.minWeight);
    if !Floored(dags, d.nexts, c.minWeight, d.pInfo, d.weight) {
      var k: nat :| FirstBest(dags, d.nexts, k, c.minWeight, d.pInfo, d.weight);
      EdgeIsPiece(c, t, dags, i, k);
      assert StepLength(d) == d.nexts[k].nextPos + 1 - i;
    }
  }

  lemma PInfoIsEntry(c: Costs, t: seq<Rune>, dags: seq<Dag>, i: nat)
    requires SolvedTable(c, t, dags) && i < |t| && dags[i].pInfo.Some?
    ensures dags[i].pInfo.value.word != []
  {
    var d := dags[i];
    assert Settled(dags, i, c.minWeight);
    var k: nat :| FirstBest(dags, d.nexts, k, c.minWeight, d.pInfo, d.weight);
    EdgeIsPiece(c, t, dags, i, k);
  }

  lemma {:induction false} PathIsSplit(c: Costs, t: seq<Rune>, dags: seq<Dag>, i: nat)
    requires SolvedTable(c, t, dags) && i <= |t|
    ensures SplitOk(c, t, i, PathFrom(dags, i))
    decreases |t| - i
  {
    if i < |t| {
      StepIsPiece(c, t, dags, i);
      PathIsSplit(c, t, dags, i + StepLength(dags[i]));
    }
  }

  /** No split beats the table's weight, and none that reaches it starts with a shorter piece than the step taken. */
  lemma NoSplitBeatsStep(c: Costs, t: seq<Rune>, dags: seq<Dag>, i: nat, other: seq<Len>)
    requires SolvedTable(c, t, dags) && i < |t| && dags[i].weight > MIN_DOUBLE && SplitOk(c, t, i, other)
    ensures SplitWeight(c, t, i, other) <= dags[i].weight
    ensures SplitWeight(c, t, i, other) == dags[i].weight ==> other != [] && StepLength(dags[i]) <= other[0]
  {
    TableBounds(c, t, dags, i, other);
    StepIsPiece(c, t, dags, i);
    PieceHasEdge(c, t, dags, i, other[0]);
  }

  lemma TableAboveFloor(c: Costs, t: seq<Rune>, dags: seq<Dag>, i: nat)
    requires SolvedTable(c, t, dags) && i < |t| && SplitsAboveFloor(c, t)
    ensures dags[i].weight > MIN_DOUBLE
  {
    assert HasSplitAbove(c, t, i);
    var above :| SplitOk(c, t, i, above) && SplitWeight(c, t, i, above) > MIN_DOUBLE;
    TableBounds(c, t, dags, i, above);
  }

  /** Above the floor the table's weight is the weight of the path read back. */
  lemma {:induction false} PathHasTableWeight(c: Costs, t: seq<Rune>, dags: seq<Dag>, i: nat)
    requires SolvedTable(c, t, dags) && i < |t| && SplitsAboveFloor(c, t)
    ensures SplitOk(c, t, i, PathFrom(dags, i))
    ensures SplitWeight(c, t, i, PathFrom(dags, i)) == dags[i].weight
    decreases |t| - i
  {
    var lens, next := PathFrom(dags, i), i + StepLength(dags[i]);
    PathIsSplit(c, t, dags, i);
    TableAboveFloor(c, t, dags, i);
    StepIsPiece(c, t, dags, i);
    assert lens[1..] == PathFrom(dags, next);
    if next < |t| {
      PathHasTableWeight(c, t, dags, next);
    }
  }

  /** Reading the table back from `i` gives the heaviest split of t[i..], ties going to the shorter first piece. */
  lemma {:induction false} PathIsHeaviest(c: Costs, t: seq<Rune>, dags: seq<Dag>, i: nat)
    requires SolvedTable(c, t, dags) && i <= |t| && SplitsAboveFloor(c, t)
    ensures SplitOk(c, t, i, PathFrom(dags, i))
    ensures Heaviest(c, t, i, PathFrom(dags, i))
    decreases |t| - i
  {
    PathIsSplit(c, t, dags, i);
    if i < |t| {
      PathHasTableWeight(c, t, dags, i);
      TableAboveFloor(c, t, dags, i);
      var lens := PathFrom(dags, i);
      forall other | SplitOk(c, t, i, other)
        ensures SplitWeight(c, t, i, other) <= SplitWeight(c, t, i, lens)
        ensures SplitWeight(c, t, i, other) == SplitWeight(c, t, i, lens) ==> other != [] && lens[0] <= other[0]
      {
        NoSplitBeatsStep(c, t, dags, i, other);
      }
      assert Unbeaten(c, t, i, lens);
      StepIsPiece(c, t, dags, i);
      PathIsHeaviest(c, t, dags, i + lens[0]);
      assert lens[1..] == PathFrom(dags, i + lens[0]);
    }
  }

  lemma EdgesPointForward(c: Costs, t: seq<Rune>, dags: seq<Dag>)
    requires |dags| == |t| && forall i :: 0 <= i < |t| ==> dags[i].nexts == Edges(c.dict, t, i, c.maxLen)
    ensures forall i :: 0 <= i < |t| ==> dags[i].nexts != []
    ensures forall i, x :: 0 <= i < |t| && x in dags[i].nexts ==> i <= x.nextPos
  {
    forall i | 0 <= i < |t| ensures dags[i].nexts != [] && forall x :: x in dags[i].nexts ==> i <= x.nextPos {
      EdgesExact(c.dict, t, i, c.maxLen);
    }
  }

  /** What the ranges read back from a solved table are. */
  lemma TableCut(c: Costs, t: seq<Rune>, dags: seq<Dag>, b: nat)
    requires SolvedTable(c, t, dags)
    ensures forall i :: 0 <= i < |dags| && dags[i].pInfo.Some? ==> |dags[i].pInfo.value.word| >= 1
    ensures var cut := RangesOf(b, PathFrom(dags, 0));
      && Tiles(cut, b, b + |t|)
      && (forall w :: w in cut ==> w.left <= w.right)
      && SplitOk(c, t, 0, LengthsOf(cut))
      && (SplitsAboveFloor(c, t) ==> Heaviest(c, t, 0, LengthsOf(cut)))
  {
    forall i | 0 <= i < |dags| && dags[i].pInfo.Some? ensures |dags[i].pInfo.value.word| >= 1 {
      PInfoIsEntry(c, t, dags, i);
    }
    PathIsSplit(c, t, dags, 0);
    RangesRoundTrip(c, t, 0, b, PathFrom(dags, 0));
    if SplitsAboveFloor(c, t) {
      PathIsHeaviest(c, t, dags, 0);
    }
  }

  // ---------- When scores stay above the floor ----------

  /** A caller's check: the weights are at least `lo`, and that many times `lo` as there are runes is above the
      floor. */
  lemma BoundedWeightsStayAboveFloor(c: Costs, t: seq<Rune>, lo: real)
    requires lo <= 0.0 && c.minWeight >= lo && (forall k :: k in c.dict ==> c.dict[k].weight >= lo)
    requires Multiple(lo, |t|) > MIN_DOUBLE
    ensures SplitsAboveFloor(c, t)
  {
    forall i | 0 <= i < |t| ensures HasSplitAbove(c, t, i) {
      var lens := SingleRunes(c, t, lo, i);
      MultipleShrinks(lo, |t| - i, |t|);
    }
  }

  lemma {:induction false} SingleRunes(c: Costs, t: seq<Rune>, lo: real, i: nat) returns (lens: seq<Len>)
    requires lo <= 0.0 && c.minWeight >= lo && (forall k :: k in c.dict ==> c.dict[k].weight >= lo)
    requires i <= |t|
    ensures SplitOk(c, t, i, lens) && SplitWeight(c, t, i, lens) >= Multiple(lo, |t| - i)
    decreases |t| - i
  {
    if i == |t| {
      lens := [];
    } else {
      var rest := SingleRunes(c, t, lo, i + 1);
      lens := [1] + rest;
      assert lens[1..] == rest;
    }
  }

  // ---------- Ordinary text ----------

  /** `lens` split t[i..] into single runes and dictionary words of any length. */
  ghost predicate Splits(d: Dict, t: seq<Rune>, i: nat, lens: seq<Len>)
    decreases |lens|
  {
    if lens == [] then i == |t|
    else
      && i + lens[0] <= |t| && (lens[0] == 1 || t[i..i + lens[0]] in d)
      && Splits(d, t, i + lens[0], lens[1..])
  }

  /** What the split weighs: each piece what the dictionary says, or `w` if it says nothing. */
  ghost function Weighs(d: Dict, w: real, t: seq<Rune>, i: nat, lens: seq<Len>): real
    requires Splits(d, t, i, lens)
    decreases |lens|
  {
    if lens == [] then 0.0
    else
      (if t[i..i + lens[0]] in d then d[t[i..i + lens[0]]].weight else w) + Weighs(d, w, t, i + lens[0], lens[1..])
  }

  /** No other split of the text weighs more, and none that weighs as much begins with a shorter piece. */
  ghost predicate BestSplit(d: Dict, w: real, t: seq<Rune>, lens: seq<Len>) {
    && Splits(d, t, 0, lens)
    && forall other :: Splits(d, t, 0, other) ==>
         && Weighs(d, w, t, 0, other) <= Weighs(d, w, t, 0, lens)
         && (Weighs(d, w, t, 0, other) == Weighs(d, w, t, 0, lens) && lens != [] ==>
               other != [] && lens[0] <= other[0])
  }

  lemma {:induction false} SplitsAgree(c: Costs, t: seq<Rune>, i: nat, lens: seq<Len>)
    requires i <= |t| && forall k :: k in c.dict ==> |k| <= c.maxLen
    ensures Splits(c.dict, t, i, lens) <==> SplitOk(c, t, i, lens)
    ensures Splits(c.dict, t, i, lens) ==> Weighs(c.dict, c.minWeight, t, i, lens) == SplitWeight(c, t, i, lens)
    decreases |lens|
  {
    if lens != [] && i + lens[0] <= |t| {
      assert t[i..i + lens[0]] in c.dict ==> |t[i..i + lens[0]]| <= c.maxLen;
      SplitsAgree(c, t, i + lens[0], lens[1..]);
    }
  }

  /** With a dictionary whose words are not too long, and weights as logarithms of frequencies have them, a text of up
      to 2^32 runes is cut best. */
  lemma OrdinaryIsBest(c: Costs, t: seq<Rune>, lens: seq<Len>)
    requires c.minWeight >= -1000.0 && (forall k :: k in c.dict ==> c.dict[k].weight >= -1000.0 && |k| <= c.maxLen)
    requires |t| <= 0x1_0000_0000 && SplitOk(c, t, 0, lens)
    requires SplitsAboveFloor(c, t) ==> Heaviest(c, t, 0, lens)
    ensures BestSplit(c.dict, c.minWeight, t, lens)
  {
    FloorIsFar(|t|);
    BoundedWeightsStayAboveFloor(c, t, -1000.0);
    SplitsAgree(c, t, 0, lens);
    forall other | Splits(c.dict, t, 0, other)
      ensures && Weighs(c.dict, c.minWeight, t, 0, other) <= Weighs(c.dict, c.minWeight, t, 0, lens)
              && (Weighs(c.dict, c.minWeight, t, 0, other) == Weighs(c.dict, c.minWeight, t, 0, lens) && lens != [] ==>
                    other != [] && lens[0] <= other[0])
    {
      SplitsAgree(c, t, 0, other);
    }
  }

  /** The dictionary {"ab"} with every score below the floor. */
  function LowCosts(): Costs {
    Costs(map[[97, 98] := DictUnit([97, 98], MIN_DOUBLE - 1.0, [])], MIN_DOUBLE - 1.0, MAX_WORD_LENGTH)
  }

  lemma LowTable() returns (dags: seq<Dag>)
    ensures SolvedTable(LowCosts(), [97, 98], dags) && PathFrom(dags, 0) == [1, 1]
  {
    var c, t: seq<Rune> := LowCosts(), [97, 98];
    var unit, rs := c.dict[[97, 98]], RuneStr(0, 0, 0, 0, 0);
    assert t[0..1] == [97] && t[1..2] == [98] && t[0..2] == [97, 98];
    dags := [Dag(rs, Edges(c.dict, t, 0, c.maxLen), None, MIN_DOUBLE),
             Dag(rs, Edges(c.dict, t, 1, c.maxLen), None, MIN_DOUBLE)];
    assert Edges(c.dict, t, 1, c.maxLen) == [Edge(1, None)];
    assert LongerEdges(c.dict, t, 0, 1, c.maxLen) == [Edge(1, Some(unit))] + LongerEdges(c.dict, t, 0, 2, c.maxLen);
    assert Edges(c.dict, t, 0, c.maxLen) == [Edge(0, None), Edge(1, Some(unit))];
    assert Floored(dags, dags[0].nexts, c.minWeight, None, MIN_DOUBLE);
    assert Floored(dags, dags[1].nexts, c.minWeight, None, MIN_DOUBLE);
    assert PathFrom(dags, 1) == [1];
  }

  /** A sanity check of the hypothesis: without it the statement is false. Weights this low are no logarithms of
      frequencies; with them the two-rune word loses to two single runes that weigh less. */
  lemma BelowFloorNotHeaviest() returns (dags: seq<Dag>)
    ensures SolvedTable(LowCosts(), [97, 98], dags)
    ensures SplitOk(LowCosts(), [97, 98], 0, PathFrom(dags, 0))
    ensures !Heaviest(LowCosts(), [97, 98], 0, PathFrom(dags, 0))
  {
    dags := LowTable();
    var c, t: seq<Rune>, low := LowCosts(), [97, 98], MIN_DOUBLE - 1.0;
    PathIsSplit(c, t, dags, 0);
    assert t[0..1] == [97] && t[1..2] == [98] && t[0..2] == [97, 98];
    var ones: seq<Len>, one: seq<Len>, two: seq<Len> := [1, 1], [1], [2];
    assert ones[1..] == one && one[1..] == [] && two[1..] == [];
    assert SplitOk(c, t, 1, one) && SplitWeight(c, t, 1, one) == low;
    assert SplitWeight(c, t, 0, ones) == low + low;
    assert SplitOk(c, t, 0, two) && SplitWeight(c, t, 0, two) == low;
    assert !Unbeaten(c, t, 0, ones);
  }

  // ---------- The segmenter ----------

  class MPSegment {
    const dictTrie: DictTrie

    constructor (dictTrie: DictTrie)
      ensures this.dictTrie == dictTrie
    {
      this.dictTrie := dictTrie;
    }

    ghost function CostsFor(maxLen: nat): Costs
      reads dictTrie.trie
    {
      Costs(dictTrie.trie.dict, dictTrie.minWeight, maxLen)
    }

    /** Fills in each start's best edge, last start first. */
    method CalcDP(dags: array<Dag>)
      requires forall i :: 0 <= i < dags.Length ==> dags[i].nexts != []
      requires forall i, e :: 0 <= i < dags.Length && e in dags[i].nexts ==> i <= e.nextPos
      modifies dags
      ensures forall i :: 0 <= i < dags.Length ==>
        dags[i].nexts == old(dags[i].nexts) && dags[i].runestr == old(dags[i].runestr)
      ensures forall i :: 0 <= i < dags.Length ==> Settled(dags[..], i, dictTrie.minWeight)
    {
      var n := dags.Length;
      var i := n;
      while i > 0
        invariant 0 <= i <= n
        invariant forall k :: 0 <= k < n ==>
          dags[k].nexts == old(dags[k].nexts) && dags[k].runestr == old(dags[k].runestr)
        invariant forall k :: i <= k < n ==> Settled(dags[..], k, dictTrie.minWeight)
      {
        i := i - 1;
        ghost var before := dags[..];
        var pInfo, weight := BestEdge(dags, dags[i].nexts, i);
        dags[i] := dags[i].(pInfo := pInfo, weight := weight);
        SettledStays(before, dags[..], i, dictTrie.minWeight);
      }
    }

    /** The inner loop: the first heaviest edge above the floor. */
    method BestEdge(dags: array<Dag>, nexts: seq<Edge>, i: nat) returns (pInfo: Option<DictUnit>, weight: real)
      ensures Floored(dags[..], nexts, dictTrie.minWeight, pInfo, weight)
        || exists k: nat :: FirstBest(dags[..], nexts, k, dictTrie.minWeight, pInfo, weight)
    {
      pInfo, weight := None, MIN_DOUBLE;
      ghost var best := 0;
      var it := 0;
      while it < |nexts|
        invariant it <= |nexts|
        invariant Floored(dags[..], nexts[..it], dictTrie.minWeight, pInfo, weight)
          || FirstBest(dags[..], nexts[..it], best, dictTrie.minWeight, pInfo, weight)
      {
        var nextPos, p := nexts[it].nextPos, nexts[it].unit;
        var val := 0.0;
        if nextPos + 1 < dags.Length {
          val := val + dags[nextPos + 1].weight;
        }
        if p.Some? {
          val := val + p.value.weight;
        } else {
          val := val + dictTrie.minWeight;
        }
        assert val == EdgeValue(dags[..], nexts[it], dictTrie.minWeight);
        if val > weight {
          pInfo, weight := p, val;
          best := it;
        }
        it := it + 1;
      }
      assert nexts[..|nexts|] == nexts;
    }

    /** Entries after `i` do not look at entry `i`. */
    lemma SettledStays(before: seq<Dag>, after: seq<Dag>, i: nat, minWeight: real)
      requires |before| == |after| && i < |after|
      requires forall k :: 0 <= k < |after| && k != i ==> before[k] == after[k]
      requires after[i].nexts == before[i].nexts
      requires forall k, e :: 0 <= k < |after| && e in after[k].nexts ==> k <= e.nextPos
      requires forall k :: i < k < |after| ==> Settled(before, k, minWeight)
      requires Floored(before, after[i].nexts, minWeight, after[i].pInfo, after[i].weight)
        || exists k: nat :: FirstBest(before, after[i].nexts, k, minWeight, after[i].pInfo, after[i].weight)
      ensures forall k :: i <= k < |after| ==> Settled(after, k, minWeight)
    {
      forall k | i <= k < |after| ensures Settled(after, k, minWeight) {
        var es := after[k].nexts;
        assert forall a :: 0 <= a < |es| ==> es[a] in es;
        assert forall a :: 0 <= a < |es| ==> EdgeValue(after, es[a], minWeight) == EdgeValue(before, es[a], minWeight);
        var d := after[k];
        if Floored(before, es, minWeight, d.pInfo, d.weight) {
          assert Floored(after, es, minWeight, d.pInfo, d.weight);
        } else {
          assert k != i ==> Settled(before, k, minWeight);
          var x: nat :| FirstBest(before, es, x, minWeight, d.pInfo, d.weight);
          assert FirstBest(after, es, x, minWeight, d.pInfo, d.weight);
        }
      }
    }

    /** Reads the table back, pushing one range per step. */
    method CutByDag(b: nat, dags: array<Dag>, words0: seq<WordRange>) returns (words: seq<WordRange>)
      requires forall i :: 0 <= i < dags.Length && dags[i].pInfo.Some? ==> |dags[i].pInfo.value.word| >= 1
      ensures words == words0 + RangesOf(b, PathFrom(dags[..], 0))
    {
      words := words0;
      var i := 0;
      while i < dags.Length
        invariant words + RangesOf(b + i, PathFrom(dags[..], i)) == words0 + RangesOf(b, PathFrom(dags[..], 0))
        decreases dags.Length - i
      {
        var p := dags[i].pInfo;
        ghost var len, rest := StepLength(dags[i]), PathFrom(dags[..], i + StepLength(dags[i]));
        assert PathFrom(dags[..], i)[1..] == rest;
        assert RangesOf(b + i, PathFrom(dags[..], i))
            == [WordRange(b + i, b + i + len - 1)] + RangesOf(b + i + len, rest);
        if p.Some? {
          words := words + [WordRange(b + i, b + i + |p.value.word| - 1)];
          i := i + |p.value.word|;
        } else {
          words := words + [WordRange(b + i, b + i)];
          i := i + 1;
        }
      }
    }

    /** Appends the cut of runes [b, e): a tiling by legal pieces, the heaviest one if scores stay above the floor. */
    method Cut(sentence: seq<RuneStr>, b: nat, e: nat, words0: seq<WordRange>, maxLen: nat)
      returns (words: seq<WordRange>)
      requires dictTrie.Valid() && b <= e <= |sentence|
      ensures words0 <= words
      ensures var cut := words[|words0|..]; var t := RunesOf(sentence)[b..e];
        && Tiles(cut, b, e)
        && (forall w :: w in cut ==> w.left <= w.right)
        && SplitOk(CostsFor(maxLen), t, 0, LengthsOf(cut))
        && (SplitsAboveFloor(CostsFor(maxLen), t) ==> Heaviest(CostsFor(maxLen), t, 0, LengthsOf(cut)))
      ensures var d, w := dictTrie.trie.dict, dictTrie.minWeight;
        w >= -1000.0 && (forall k :: k in d ==> d[k].weight >= -1000.0 && |k| <= maxLen) && e - b <= 0x1_0000_0000 ==>
          BestSplit(d, w, RunesOf(sentence)[b..e], LengthsOf(words[|words0|..]))
    {
      hide SplitOk, SplitsAboveFloor, Heaviest, BestSplit, Tiles, Settled, Edges, RangesOf, PathFrom, LengthsOf;
      ghost var c, t := CostsFor(maxLen), RunesOf(sentence)[b..e];
      var dags := dictTrie.trie.FindDag(sentence, b, e, maxLen);
      EdgesPointForward(c, t, dags[..]);
      CalcDP(dags);
      assert SolvedTable(c, t, dags[..]);
      TableCut(c, t, dags[..], b);
      words := CutByDag(b, dags, words0);
      assert words[|words0|..] == RangesOf(b, PathFrom(dags[..], 0));
      if c.minWeight >= -1000.0 && (forall k :: k in c.dict ==> c.dict[k].weight >= -1000.0 && |k| <= maxLen)
         && e - b <= 0x1_0000_0000 {
        OrdinaryIsBest(c, t, LengthsOf(words[|words0|..]));
      }
    }
  }
}
