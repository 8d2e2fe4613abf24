/** The dictionary index: a heap tree of nodes, one per prefix of a key (src/cppjieba/Trie.hpp). */
module Trie {
  import opened Wrappers
  import opened Bytes
  import opened Unicode

  const MAX_WORD_LENGTH: nat := 512

  datatype DictUnit = DictUnit(word: seq<Rune>, weight: real, tag: seq<Byte>)
  datatype Edge = Edge(nextPos: nat, unit: Option<DictUnit>)
  datatype Dag = Dag(runestr: RuneStr, nexts: seq<Edge>, pInfo: Option<DictUnit>, weight: real)
  type Dict = map<seq<Rune>, DictUnit>

  // ---------- What the index means: a plain map ----------

  function Lookup(d: Dict, key: seq<Rune>): Option<DictUnit> {
    if key in d then Some(d[key]) else None
  }

  /** The map after the first `n` insertions: the last one wins and the empty key is ignored. */
  function BuildDict(keys: seq<seq<Rune>>, units: seq<DictUnit>, n: nat): Dict
    requires n <= |keys| && |keys| == |units|
  {
    if n == 0 then map[]
    else if keys[n - 1] == [] then BuildDict(keys, units, n - 1)
    else BuildDict(keys, units, n - 1)[keys[n - 1] := units[n - 1]]
  }

  /** What `CreateTrie` builds: nothing unless there are both keys and entries. */
  function Built(keys: seq<seq<Rune>>, units: seq<DictUnit>): Dict
    requires keys == [] || units == [] || |keys| == |units|
  {
    if keys == [] || units == [] then map[] else BuildDict(keys, units, |keys|)
  }

  /** What insertions leave behind: exactly the non-empty keys are stored. */
  lemma {:induction false} BuildDictKeys(keys: seq<seq<Rune>>, units: seq<DictUnit>, n: nat, k: seq<Rune>)
    requires n <= |keys| && |keys| == |units|
    ensures k in BuildDict(keys, units, n) <==> k != [] && k in keys[..n]
  {
    if n > 0 {
      BuildDictKeys(keys, units, n - 1, k);
      assert keys[..n] == keys[..n - 1] + [keys[n - 1]];
    }
  }

  /** Each is stored with the last entry inserted under it. */
  lemma {:induction false} BuildDictLast(keys: seq<seq<Rune>>, units: seq<DictUnit>, n: nat, i: nat)
    requires i < n <= |keys| && |keys| == |units| && keys[i] != [] && keys[i] !in keys[i + 1..n]
    ensures keys[i] in BuildDict(keys, units, n) && BuildDict(keys, units, n)[keys[i]] == units[i]
  {
    if i < n - 1 {
      assert keys[i + 1..n] == keys[i + 1..n - 1] + [keys[n - 1]];
      BuildDictLast(keys, units, n - 1, i);
    }
  }

  /** `d` stores exactly the non-empty keys, each with the last entry of that key. */
  ghost predicate Stores(d: Dict, keys: seq<seq<Rune>>, units: seq<DictUnit>)
    requires |keys| == |units|
  {
    && (forall k :: k in d <==> k != [] && k in keys)
    && (forall i :: 0 <= i < |keys| && keys[i] != [] && keys[i] !in keys[i + 1..] ==> d[keys[i]] == units[i])
  }

  lemma BuiltStores(keys: seq<seq<Rune>>, units: seq<DictUnit>)
    requires |keys| == |units|
    ensures Stores(Built(keys, units), keys, units)
  {
    hide BuildDict;
    var n := |keys|;
    assert keys[..n] == keys;
    forall k ensures k in Built(keys, units) <==> k != [] && k in keys {
      BuildDictKeys(keys, units, n, k);
    }
    forall i | 0 <= i < n && keys[i] != [] && keys[i] !in keys[i + 1..]
      ensures Built(keys, units)[keys[i]] == units[i]
    {
      assert keys[i + 1..n] == keys[i + 1..];
      BuildDictLast(keys, units, n, i);
    }
  }

  function RunesOf(s: seq<RuneStr>): (t: seq<Rune>)
    ensures |t| == |s| && forall k :: 0 <= k < |s| ==> t[k] == s[k].rune
  {
    seq(|s|, k requires 0 <= k < |s| => s[k].rune)
  }

  /** The edges of start `i` for words ending at `j` or later. */
  function LongerEdges(d: Dict, t: seq<Rune>, i: nat, j: nat, maxLen: nat): seq<Edge>
    requires i < j
    decreases |t| - j
  {
    if j < |t| && j - i + 1 <= maxLen then
      (if t[i..j + 1] in d then [Edge(j, Some(d[t[i..j + 1]]))] else []) + LongerEdges(d, t, i, j + 1, maxLen)
    else
      []
  }

  /** All edges of start `i`: the single rune, then the longer dictionary words. */
  function Edges(d: Dict, t: seq<Rune>, i: nat, maxLen: nat): seq<Edge>
    requires i < |t|
  {
    [Edge(i, Lookup(d, t[i..i + 1]))] + LongerEdges(d, t, i, i + 1, maxLen)
  }

  predicate IsEdge(d: Dict, t: seq<Rune>, i: nat, maxLen: nat, e: Edge)
    requires i < |t|
  {
    || (e.nextPos == i && e.unit == Lookup(d, t[i..i + 1]))
    || (i < e.nextPos < |t| && e.nextPos - i + 1 <= maxLen && t[i..e.nextPos + 1] in d
        && e.unit == Some(d[t[i..e.nextPos + 1]]))
  }

  lemma {:induction false} LongerEdgesExact(d: Dict, t: seq<Rune>, i: nat, j: nat, maxLen: nat)
    requires i < j && i < |t|
    ensures var es := LongerEdges(d, t, i, j, maxLen);
      && (forall e :: e in es <==> e.nextPos >= j && IsEdge(d, t, i, maxLen, e))
      && (forall a, b :: 0 <= a < b < |es| ==> es[a].nextPos < es[b].nextPos)
    decreases |t| - j
  {
    if j < |t| && j - i + 1 <= maxLen {
      LongerEdgesExact(d, t, i, j + 1, maxLen);
      var tail := LongerEdges(d, t, i, j + 1, maxLen);
      if t[i..j + 1] in d {
        var head := Edge(j, Some(d[t[i..j + 1]]));
        assert LongerEdges(d, t, i, j, maxLen) == [head] + tail;
        forall e ensures e in [head] + tail <==> e.nextPos >= j && IsEdge(d, t, i, maxLen, e) {
          assert e in [head] + tail <==> e == head || e in tail;
        }
      } else {
        assert LongerEdges(d, t, i, j, maxLen) == tail;
      }
    }
  }

  /** The edges are exactly the single rune and the dictionary words within `maxLen`, shortest first. */
  lemma EdgesExact(d: Dict, t: seq<Rune>, i: nat, maxLen: nat)
    requires i < |t|
    ensures var es := Edges(d, t, i, maxLen);
      && (forall e :: e in es <==> IsEdge(d, t, i, maxLen, e))
      && es[0].nextPos == i
      && (forall a, b :: 0 <= a < b < |es| ==> es[a].nextPos < es[b].nextPos)
  {
    LongerEdgesExact(d, t, i, i + 1, maxLen);
    var first, tail := Edge(i, Lookup(d, t[i..i + 1])), LongerEdges(d, t, i, i + 1, maxLen);
    forall e ensures e in [first] + tail <==> IsEdge(d, t, i, maxLen, e) {
      assert e in [first] + tail <==> e == first || e in tail;
    }
    forall b | 0 <= b < |tail| ensures tail[b].nextPos > i {
      assert tail[b] in tail;
    }
  }

  // ---------- The heap tree ----------

  class TrieNode {
    var next: Option<map<Rune, TrieNode>>
    var ptValue: Option<DictUnit>
    ghost const path: seq<Rune>  // the runes on the way from the root

    constructor (ghost path: seq<Rune>)
      ensures next == None && ptValue == None && this.path == path
    {
      this.path := path;
      next := None;
      ptValue := None;
    }
  }

  function Child(p: seq<Rune>, r: Rune): (c: seq<Rune>)
    ensures |c| == |p| + 1 && c[..|p|] == p && c[|p|] == r
  {
    p + [r]
  }

  class Trie {
    const root: TrieNode
    ghost var nodes: map<seq<Rune>, TrieNode>
    ghost var dict: Dict

    /** `nodes` names every node by its path from the root, and links lead exactly from a path to its extensions. */
    ghost predicate Tree()
      reads this, nodes.Values
    {
      && [] in nodes && nodes[[]] == root
      && (forall p :: p in nodes ==> nodes[p].path == p)
      && (forall p, r {:trigger Child(p, r)} :: Child(p, r) in nodes ==>
            p in nodes && nodes[p].next.Some? && r in nodes[p].next.value)
      && (forall p, r {:trigger r in nodes[p].next.value} ::
            p in nodes && nodes[p].next.Some? && r in nodes[p].next.value ==>
            Child(p, r) in nodes && nodes[Child(p, r)] == nodes[p].next.value[r])
    }

    /** The tree stores exactly the entries of `dict`. */
    ghost predicate Valid()
      reads this, nodes.Values
    {
      && Tree()
      && root.ptValue == None
      && (forall p :: p in dict ==> p in nodes && nodes[p].ptValue == Some(dict[p]))
      && (forall p :: p in nodes && nodes[p].ptValue.Some? ==> p in dict)
    }

    constructor (keys: seq<seq<Rune>>, units: seq<DictUnit>)
      requires keys == [] || units == [] || |keys| == |units|
      ensures Valid() && fresh(nodes.Values)
      ensures dict == Built(keys, units)
      ensures keys == [] || units == [] ==> dict == map[]
      ensures |keys| == |units| ==>
                && (forall k :: k in dict <==> k != [] && k in keys)
                && (forall i :: 0 <= i < |keys| && keys[i] != [] && keys[i] !in keys[i + 1..] ==>
                      dict[keys[i]] == units[i])
    {
      var node := new TrieNode([]);
      root := node;
      nodes := map[[] := node];
      dict := map[];
      new;
      CreateTrie(keys, units);
    }

    method CreateTrie(keys: seq<seq<Rune>>, units: seq<DictUnit>)
      requires Valid() && dict == map[] && (keys == [] || units == [] || |keys| == |units|)
      modifies this, nodes.Values
      ensures Valid() && fresh(nodes.Values - old(nodes.Values))
      ensures dict == Built(keys, units)
      ensures |keys| == |units| ==> Stores(dict, keys, units)
    {
      hide Stores, Valid;
      if |keys| == |units| {
        BuiltStores(keys, units);
      }
      if units == [] || keys == [] {
        return;
      }
      var i := 0;
      while i < |keys|
        invariant i <= |keys|
        invariant Valid() && fresh(nodes.Values - old(nodes.Values))
        invariant dict == BuildDict(keys, units, i)
      {
        InsertNode(keys[i], units[i]);
        i := i + 1;
      }
    }

    /** The child of `ptNode` for rune `r`, created if it is missing. */
    method Descend(ptNode: TrieNode, r: Rune, ghost p: seq<Rune>) returns (child: TrieNode)
      requires Valid() && p in nodes && nodes[p] == ptNode
      modifies this, ptNode
      ensures Valid() && fresh(nodes.Values - old(nodes.Values)) && dict == old(dict)
      ensures Child(p, r) in nodes && nodes[Child(p, r)] == child
    {
      if ptNode.next == None {
        ptNode.next := Some(map[]);
      }
      if r !in ptNode.next.value {
        child := Attach(ptNode, r, p);
      } else {
        child := ptNode.next.value[r];
      }
    }

    method Attach(ptNode: TrieNode, r: Rune, ghost p: seq<Rune>) returns (child: TrieNode)
      requires Valid() && p in nodes && nodes[p] == ptNode
      requires ptNode.next.Some? && r !in ptNode.next.value
      modifies this, ptNode
      ensures Valid() && fresh(nodes.Values - old(nodes.Values)) && dict == old(dict)
      ensures Child(p, r) in nodes && nodes[Child(p, r)] == child
    {
      ghost var c, before := Child(p, r), nodes;
      assert c !in nodes;
      child := new TrieNode(c);
      ptNode.next := Some(ptNode.next.value[r := child]);
      nodes := nodes[c := child];
      assert forall q :: q in before && q != p ==> before[q] != ptNode;
      assert forall q :: q in before && q != p ==> nodes[q].next == old(before[q].next);
      assert nodes.Values <= before.Values + {child};
    }

    method InsertNode(key: seq<Rune>, unit: DictUnit)
      requires Valid()
      modifies this, nodes.Values
      ensures Valid() && fresh(nodes.Values - old(nodes.Values))
      ensures dict == if key == [] then old(dict) else old(dict)[key := unit]
    {
      if key == [] {
        return;
      }
      var ptNode := root;
      var i := 0;
      while i < |key|
        invariant i <= |key|
        invariant Valid() && fresh(nodes.Values - old(nodes.Values)) && dict == old(dict)
        invariant key[..i] in nodes && nodes[key[..i]] == ptNode
      {
        assert Child(key[..i], key[i]) == key[..i + 1];
        ptNode := Descend(ptNode, key[i], key[..i]);
        i := i + 1;
      }
      assert key[..|key|] == key;
      SetValue(ptNode, unit, key);
    }

    method SetValue(ptNode: TrieNode, unit: DictUnit, ghost key: seq<Rune>)
      requires Valid() && key in nodes && nodes[key] == ptNode && key != []
      modifies this`dict, ptNode`ptValue
      ensures Valid() && dict == old(dict)[key := unit]
    {
      ptNode.ptValue := Some(unit);
      dict := dict[key := unit];
    }

    /** The heap structure is an unshared tree: no node hangs from two links, and none links back to the root. */
    lemma Unshared(p: seq<Rune>, r: Rune, q: seq<Rune>, x: Rune)
      requires Tree() && p in nodes && nodes[p].next.Some? && r in nodes[p].next.value
      requires q in nodes && nodes[q].next.Some? && x in nodes[q].next.value
      ensures nodes[p].next.value[r] == nodes[q].next.value[x] ==> p == q && r == x
      ensures nodes[p].next.value[r] != root
    {
      assert Child(p, r) in nodes && Child(q, x) in nodes;
      assert Child(p, r)[..|p|] == p && Child(q, x)[..|q|] == q;
    }

    lemma {:induction false} PrefixIn(p: seq<Rune>, k: nat)
      requires Tree() && p in nodes && k <= |p|
      ensures p[..k] in nodes
      decreases |p|
    {
      if k < |p| {
        var q := p[..|p| - 1];
        assert p == Child(q, p[|p| - 1]);
        PrefixIn(q, k);
        assert q[..k] == p[..k];
      } else {
        assert p[..k] == p;
      }
    }

    /** Past a missing node there are no dictionary words, so leaving the search early drops nothing. */
    lemma {:induction false} NothingBeyond(t: seq<Rune>, i: nat, j: nat, maxLen: nat)
      requires Valid() && i < j <= |t| && t[i..j] !in nodes
      ensures LongerEdges(dict, t, i, j, maxLen) == []
      decreases |t| - j
    {
      if j < |t| && j - i + 1 <= maxLen {
        assert t[i..j + 1] == Child(t[i..j], t[j]);
        NothingBeyond(t, i, j + 1, maxLen);
      }
    }

    /** The node reached from path `p` by rune `r`, or None; the two-step test of the C++ code. */
    method Step(ptNode: TrieNode, r: Rune, ghost p: seq<Rune>) returns (child: Option<TrieNode>)
      requires Valid() && p in nodes && nodes[p] == ptNode
      ensures child.None? <==> Child(p, r) !in nodes
      ensures child.Some? ==> nodes[Child(p, r)] == child.value
    {
      ghost var c := Child(p, r);
      if ptNode.next == None {
        return None;
      }
      if r !in ptNode.next.value {
        return None;
      }
      return Some(ptNode.next.value[r]);
    }

    method Find(sentence: seq<RuneStr>, b: nat, e: nat) returns (r: Option<DictUnit>)
      requires Valid() && b <= e <= |sentence|
      ensures r == Lookup(dict, RunesOf(sentence)[b..e])
    {
      ghost var t := RunesOf(sentence)[b..e];
      if b == e {
        return None;
      }
      var ptNode := root;
      var it := b;
      while it != e
        invariant b <= it <= e
        invariant t[..it - b] in nodes && nodes[t[..it - b]] == ptNode
      {
        ghost var p := t[..it - b];
        assert Child(p, sentence[it].rune) == t[..it + 1 - b];
        var child := Step(ptNode, sentence[it].rune, p);
        if child.None? {
          if t in nodes { PrefixIn(t, it + 1 - b); }
          return None;
        }
        ptNode := child.value;
        it := it + 1;
      }
      assert t[..e - b] == t;
      return ptNode.ptValue;
    }

    /** The edges of start `i` in the runes `t`. */
    method FindEdges(t: seq<Rune>, i: nat, maxLen: nat) returns (nexts: seq<Edge>)
      requires Valid() && i < |t|
      ensures nexts == Edges(dict, t, i, maxLen)
    {
      assert Child([], t[i]) == t[i..i + 1];
      var ptNode := Step(root, t[i], []);
      nexts := [Edge(i, if ptNode.Some? then ptNode.value.ptValue else None)];
      var j := i + 1;
      while j < |t| && j - i + 1 <= maxLen
        invariant i < j <= |t|
        invariant ptNode.None? <==> t[i..j] !in nodes
        invariant ptNode.Some? ==> nodes[t[i..j]] == ptNode.value
        invariant nexts + LongerEdges(dict, t, i, j, maxLen) == Edges(dict, t, i, maxLen)
      {
        if ptNode.None? {
          NothingBeyond(t, i, j, maxLen);
          break;
        }
        assert Child(t[i..j], t[j]) == t[i..j + 1];
        ptNode := Step(ptNode.value, t[j], t[i..j]);
        if ptNode.None? {
          NothingBeyond(t, i, j + 1, maxLen);
          assert LongerEdges(dict, t, i, j, maxLen) == [];
          break;
        }
        ghost var rest := LongerEdges(dict, t, i, j + 1, maxLen);
        if ptNode.value.ptValue.Some? {
          assert LongerEdges(dict, t, i, j, maxLen) == [Edge(j, ptNode.value.ptValue)] + rest;
          nexts := nexts + [Edge(j, ptNode.value.ptValue)];
        } else {
          assert LongerEdges(dict, t, i, j, maxLen) == rest;
        }
        j := j + 1;
      }
    }

    method FindDag(sentence: seq<RuneStr>, b: nat, e: nat, maxLen: nat) returns (res: array<Dag>)
      requires Valid() && b <= e <= |sentence|
      ensures fresh(res) && res.Length == e - b
      ensures forall i :: 0 <= i < e - b ==>
        res[i].runestr == sentence[b + i] && res[i].nexts == Edges(dict, RunesOf(sentence)[b..e], i, maxLen)
    {
      res := new Dag[e - b](_ => Dag(RuneStr(0, 0, 0, 0, 0), [], None, 0.0));
      var t := RunesOf(sentence)[b..e];
      var i := 0;
      while i < e - b
        invariant i <= e - b && Valid()
        invariant forall k :: 0 <= k < i ==>
          res[k].runestr == sentence[b + k] && res[k].nexts == Edges(dict, t, k, maxLen)
      {
        var nexts := FindEdges(t, i, maxLen);
        res[i] := Dag(sentence[b + i], nexts, None, 0.0);
        i := i + 1;
      }
    }
  }
}
