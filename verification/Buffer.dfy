/** The chunked buffer of src/buffer.cpp: a linked list of equal blocks with a cached current block, which behaves as
    one flat byte array with a cursor. */
module Buffer {
  import opened Bytes
  import opened Flat
  import opened Varint
  import opened Wrappers

  class Node {
    const ptr: array<Byte>
    const size: nat
    var next: Node?

    constructor (s: nat)
      ensures fresh(ptr) && ptr.Length == s && size == s && next == null
    {
      ptr := new Byte[s];
      size, next := s, null;
    }
  }

  /** One entry of a scatter or gather list: `len` bytes of `base` from `offset` on. */
  datatype Iovec = Iovec(base: array<Byte>, offset: nat, len: nat)

  /** What becomes of `setPosition`: `NullDereference` stands for what the original's walk does at the end of the
      list. */
  datatype Move = Done | OutOfRange | NullDereference

  class Buffer {
    const baseSize: nat
    var position: nat
    var capacity: nat
    var size: nat
    var root: Node
    var cur: Node?
    ghost var nodes: seq<Node>
    ghost var memory: seq<array<Byte>>
    ghost var blocks: seq<seq<Byte>>   // what the blocks hold

    /** The nodes form one list of distinct blocks. */
    ghost predicate Linked()
      reads this`root, this`capacity, this`nodes, this`memory, this`blocks, nodes, memory
    {
      && baseSize > 0 && 0 < |nodes| == |memory| == |blocks| && nodes[0] == root
      && (forall i :: 0 <= i < |nodes| ==> nodes[i].ptr == memory[i] && nodes[i].size == baseSize)
      && (forall i :: 0 <= i < |nodes| ==> memory[i].Length == baseSize && memory[i][..] == blocks[i])
      && (forall i {:trigger nodes[i].next} :: 0 <= i < |nodes| ==>
            nodes[i].next == if i + 1 < |nodes| then nodes[i + 1] else null)
      && (forall i, j :: 0 <= i < j < |nodes| ==> nodes[i] != nodes[j] && memory[i] != memory[j])
      && capacity == Span(|nodes|, baseSize) == |Flatten(blocks)|
    }

    /** The current block is the one the cursor is in, or null exactly at capacity. */
    ghost predicate Placed()
      reads this`root, this`capacity, this`nodes, this`memory, this`blocks, this`position, this`cur, nodes, memory
    {
      && Linked() && position <= capacity
      && (if position == capacity then cur == null
          else Block(position, baseSize) < |nodes| && cur == nodes[Block(position, baseSize)])
    }

    ghost predicate Valid()
      reads this, nodes, memory
    {
      Placed() && position <= size <= capacity
    }

    /** The bytes of the buffer: the first `size` of those its blocks hold, one block after the other. */
    ghost function Contents(): (s: seq<Byte>)
      reads this, nodes, memory
      requires Valid()
      ensures |s| == size
    {
      Flatten(blocks)[..size]
    }

    constructor (baseSize: nat)
      requires baseSize > 0
      ensures Valid() && Contents() == [] && position == 0 && this.baseSize == baseSize
      ensures fresh(nodes) && fresh(memory)
    {
      this.baseSize := baseSize;
      position, capacity, size := 0, baseSize, 0;
      var n := new Node(baseSize);
      root, cur, nodes, memory, blocks := n, n, [n], [n.ptr], [n.ptr[..]];
    }

    method Init()
      requires Valid()
      modifies this`position, this`size, this`cur
      ensures Valid() && Contents() == [] && position == 0 && capacity == old(capacity)
    {
      SpanGrows(0, |nodes|, baseSize);
      position, size, cur := 0, 0, root;
    }

    method Clear()
      requires Valid()
      modifies this, root
      ensures Valid() && Contents() == [] && position == 0 && capacity == baseSize
      ensures nodes == old(nodes[..1]) && memory == old(memory[..1])
    {
      position, size, capacity := 0, 0, baseSize;
      cur := root;
      root.next := null;
      nodes, memory, blocks := nodes[..1], memory[..1], blocks[..1];
    }

    /** Copies `buf[from..to]` into the current block at the cursor. */
    method Put(npos: nat, buf: seq<Byte>, from: nat, to: nat)
      requires Placed() && position < capacity && npos == Offset(position, baseSize)
      requires from <= to <= |buf| && npos + (to - from) <= baseSize
      modifies this`blocks, cur.ptr
      ensures Placed() && Copied(Flatten(blocks), old(Flatten(blocks)), position, buf, from, to)
    {
      ghost var i := Block(position, baseSize);
      SpanOf(position, baseSize);
      Memcpy(cur.ptr, npos, buf, from, to);
      blocks := blocks[i := cur.ptr[..]];
      FlattenCopied(blocks, old(blocks), baseSize, i, npos, buf, from, to);
    }

    /** Moves the cursor within or to the end of its block. */
    method Advance(npos: nat, n: nat)
      requires Placed() && position < capacity && npos == Offset(position, baseSize) && npos + n <= baseSize
      modifies this`position, this`cur
      ensures Placed() && position == old(position) + n && (cur != null ==> cur.size == baseSize)
      ensures npos + n == baseSize && position < capacity ==> Offset(position, baseSize) == 0
    {
      NextPosition(position, n, |nodes|, baseSize);
      if cur.size == npos + n {
        cur := cur.next;
      }
      position := position + n;
    }

    /** Copies one more piece of `buf`, whose copying into `flat` began at `start`, and moves the cursor behind it. */
    method CopyPiece(npos: nat, buf: seq<Byte>, from: nat, to: nat, ghost flat: seq<Byte>, ghost start: nat)
      requires Placed() && position < capacity && npos == Offset(position, baseSize)
      requires from <= to <= |buf| && npos + (to - from) <= baseSize
      requires position == start + from && Copied(Flatten(blocks), flat, start, buf, 0, from)
      modifies this`position, this`cur, this`blocks, memory
      ensures Placed() && position == start + to && (position < capacity ==> cur.size == baseSize)
      ensures npos + (to - from) == baseSize && position < capacity ==> Offset(position, baseSize) == 0
      ensures Copied(Flatten(blocks), flat, start, buf, 0, to)
    {
      ghost var mid := Flatten(blocks);
      Put(npos, buf, from, to);
      CopiedMore(Flatten(blocks), mid, flat, start, buf, 0, from, to);
      Advance(npos, to - from);
    }

    /** The copying loop of `write`, block by block, once there is room. */
    method Fill(buf: seq<Byte>)
      requires Placed() && buf != [] && |buf| <= capacity - position
      modifies this`position, this`cur, this`blocks, memory
      ensures Placed() && position == old(position) + |buf|
      ensures Copied(Flatten(blocks), old(Flatten(blocks)), old(position), buf, 0, |buf|)
    {
      ghost var flat, start := Flatten(blocks), position;
      var npos := Offset(position, baseSize);
      var ncap := cur.size - npos;
      var bpos: nat, n: nat := 0, |buf|;
      CopiedNone(flat, start, buf, 0);
      while n > 0
        invariant Placed() && n + bpos == |buf| && position == start + bpos
        invariant n > 0 ==> position < capacity && npos == Offset(position, baseSize) && ncap == baseSize - npos
        invariant Copied(Flatten(blocks), flat, start, buf, 0, bpos)
      {
        var len := if ncap >= n then n else ncap;
        CopyPiece(npos, buf, bpos, bpos + len, flat, start);
        bpos, n := bpos + len, n - len;
        if n > 0 {
          npos, ncap := 0, cur.size;
        }
      }
    }

    /** Follows the list to its end. */
    method Last(from: Node) returns (last: Node)
      requires Linked() && from in nodes
      ensures last == nodes[|nodes| - 1]
    {
      last := from;
      ghost var i :| 0 <= i < |nodes| && nodes[i] == from;
      while last.next != null
        invariant 0 <= i < |nodes| && last == nodes[i]
        decreases |nodes| - i
      {
        assert nodes[i].next != null;
        last := last.next;
        i := i + 1;
      }
      assert nodes[i].next == null;
    }

    /** Hangs a new block behind the last node. */
    method Append(last: Node) returns (n: Node)
      requires Linked() && last == nodes[|nodes| - 1]
      modifies this`nodes, this`memory, this`blocks, this`capacity, last`next
      ensures Linked() && fresh(n) && fresh(n.ptr)
      ensures nodes == old(nodes) + [n] && memory == old(memory) + [n.ptr] && old(blocks) <= blocks
    {
      n := new Node(baseSize);
      last.next := n;
      capacity := capacity + baseSize;
      nodes, memory, blocks := nodes + [n], memory + [n.ptr], blocks + [n.ptr[..]];
      FlattenConcat(old(blocks), [n.ptr[..]]);
      FlattenLength(blocks, baseSize);
    }

    /** Nothing but what was there, and what is new. */
    twostate predicate Grown()
      reads this`nodes, this`memory
    {
      && old(nodes) <= nodes && old(memory) <= memory
      && (forall i :: |old(nodes)| <= i < |nodes| ==> fresh(nodes[i]))
      && (forall i :: |old(memory)| <= i < |memory| ==> fresh(memory[i]))
    }

    /** `count` new blocks behind the last node. */
    method Extend(last: Node, count: nat) returns (first: Node?)
      requires Linked() && last == nodes[|nodes| - 1]
      modifies this`nodes, this`memory, this`blocks, this`capacity, last`next
      ensures Linked() && Grown() && old(blocks) <= blocks && |nodes| == |old(nodes)| + count
      ensures first == if count == 0 then null else nodes[|old(nodes)|]
    {
      first := null;
      var tmp := last;
      var i := 0;
      while i < count
        invariant 0 <= i <= count && |nodes| == |old(nodes)| + i
        invariant Linked() && Grown() && old(blocks) <= blocks && tmp == nodes[|nodes| - 1]
        invariant first == if i == 0 then null else nodes[|old(nodes)|]
      {
        tmp := Append(tmp);
        if first == null {
          first := tmp;
        }
        i := i + 1;
      }
    }

    /** Grows the list, and nothing else, until `n` bytes fit behind the cursor. */
    method AddCapacity(n: nat)
      requires Placed()
      modifies this`capacity, this`cur, this`nodes, this`memory, this`blocks, nodes
      ensures Placed() && Grown() && old(blocks) <= blocks && n <= capacity - position && capacity >= old(capacity)
      ensures if n <= old(capacity) - position then capacity == old(capacity) else capacity - baseSize < position + n
    {
      var before := capacity - position;
      if n == 0 || before >= n {
        return;
      }
      ghost var had := |nodes|;
      var tmp := Last(if cur == null then root else cur);
      var first := Extend(tmp, BlocksFor(n - before, baseSize));
      BlocksForSuffice(n - before, baseSize);
      SpanAdds(had, BlocksFor(n - before, baseSize), baseSize);
      if before == 0 {
        BlockOf(had, 0, baseSize);
        cur := first;
      }
    }

    /** `write` once there is room. */
    method Overwrite(buf: seq<Byte>)
      requires Valid() && buf != [] && |buf| <= capacity - position
      modifies this`position, this`cur, this`blocks, this`size, memory
      ensures Valid() && Contents() == Written(old(Contents()), old(position), buf) && position == old(position) + |buf|
    {
      Fill(buf);
      CopiedWritten(Flatten(blocks), old(Flatten(blocks)), size, old(position), buf);
      if position > size {
        size := position;
      }
    }

    /** `addCapacity` leaves the bytes of the buffer as they are. */
    method MakeRoom(n: nat)
      requires Valid()
      modifies this`capacity, this`cur, this`nodes, this`memory, this`blocks, nodes
      ensures Valid() && Contents() == old(Contents()) && Grown() && n <= capacity - position
    {
      AddCapacity(n);
      FlattenGrown(old(blocks), blocks);
    }

    /** `write`: overwrites what is behind the cursor, growing the buffer as far as needed. */
    method Write(buf: seq<Byte>)
      requires Valid()
      modifies this, nodes, memory
      ensures Valid() && Contents() == Written(old(Contents()), old(position), buf) && position == old(position) + |buf|
      ensures Grown()
    {
      if buf != [] {
        MakeRoom(|buf|);
        Overwrite(buf);
      }
    }

    /** Copies one piece at the cursor to `buf`, which holds the bytes from `start` on, and moves the cursor behind
        it. */
    method ReadPiece(buf: array<Byte>, npos: nat, bpos: nat, n: nat, ghost before: seq<Byte>, ghost start: nat)
      requires Placed() && position < capacity && npos == Offset(position, baseSize) && npos + n <= baseSize
      requires bpos + n <= buf.Length && position == start + bpos && buf !in memory
      requires Copied(buf[..], before, 0, Flatten(blocks), start, position)
      modifies this`position, this`cur, buf
      ensures Placed() && position == start + bpos + n && (position < capacity ==> cur.size == baseSize)
      ensures npos + n == baseSize && position < capacity ==> Offset(position, baseSize) == 0
      ensures Copied(buf[..], before, 0, Flatten(blocks), start, position)
    {
      ghost var mid := buf[..];
      SpanOf(position, baseSize);
      Memcpy(buf, bpos, cur.ptr[..], npos, npos + n);
      CopiedFromBlock(buf[..], mid, bpos, blocks, baseSize, Block(position, baseSize), npos, n);
      CopiedMore(buf[..], mid, before, 0, Flatten(blocks), start, position, position + n);
      Advance(npos, n);
    }

    /** The copying loop of `read`. */
    method Drain(buf: array<Byte>, n: nat)
      requires Placed() && n <= buf.Length && n <= capacity - position && buf !in memory && position < capacity
      modifies this`position, this`cur, buf
      ensures Placed() && position == old(position) + n
      ensures Copied(buf[..], old(buf[..]), 0, Flatten(blocks), old(position), position)
    {
      ghost var before, start := buf[..], position;
      var npos := Offset(position, baseSize);
      var ncap := cur.size - npos;
      var bpos: nat, left: nat := 0, n;
      CopiedNone(before, 0, Flatten(blocks), start);
      while left > 0
        invariant Placed() && left + bpos == n && position == start + bpos
        invariant left > 0 ==> position < capacity && npos == Offset(position, baseSize) && ncap == baseSize - npos
        invariant Copied(buf[..], before, 0, Flatten(blocks), start, position)
      {
        var len := if ncap >= left then left else ncap;
        ReadPiece(buf, npos, bpos, len, before, start);
        bpos, left := bpos + len, left - len;
        if left > 0 {
          npos, ncap := 0, cur.size;
        }
      }
    }

    /** `read`: fails exactly when fewer than `n` bytes are left, and then changes nothing. With nothing to read the
        original needs a current block all the same. */
    method Read(buf: array<Byte>, n: nat) returns (ok: bool)
      requires Valid() && n <= buf.Length && buf !in memory && (n == 0 ==> position < capacity)
      modifies this`position, this`cur, buf
      ensures Valid() && Contents() == old(Contents()) && ok == (n <= size - old(position))
      ensures position == if ok then old(position) + n else old(position)
      ensures !ok ==> buf[..] == old(buf[..])
      ensures ok ==> buf[..] == Contents()[old(position)..position] + old(buf[..])[n..]
    {
      if n > size - position {
        return false;
      }
      Drain(buf, n);
      return true;
    }

    /** Walks the list from its root to the block of position `v`. The original looks at the size of each block it comes
        to without asking whether there is one; `onList` says that there always was. */
    method Seek(v: nat) returns (onList: bool)
      requires Linked()
      modifies this`cur
      ensures onList <==> v < capacity
      ensures onList ==> Block(v, baseSize) < |nodes| && cur == nodes[Block(v, baseSize)]
      ensures !onList ==> cur == null
    {
      cur := root;
      var rest: nat := v;
      ghost var i := 0;
      while cur != null && rest >= cur.size
        invariant 0 <= i <= |nodes| && cur == (if i < |nodes| then nodes[i] else null)
        invariant v == Span(i, baseSize) + rest
        decreases |nodes| - i
      {
        rest := rest - cur.size;
        assert Span(i + 1, baseSize) + rest == v;
        cur := cur.next;
        i := i + 1;
      }
      onList := cur != null;
      if onList {
        BlockOf(i, rest, baseSize);
        SpanGrows(i, |nodes|, baseSize);
      }
    }

    /** `setPosition`: beyond the capacity it fails and changes nothing; beyond the size it grows the buffer by whatever
        the blocks hold; at exactly the capacity it walks off the list. */
    method SetPosition(v: nat) returns (r: Move)
      requires Valid()
      modifies this`position, this`size, this`cur
      ensures r.OutOfRange? <==> v > capacity
      ensures r.NullDereference? <==> v == capacity
      ensures r.OutOfRange? ==> Valid() && position == old(position) && size == old(size) && cur == old(cur)
      ensures r.Done? ==>
                && Valid() && position == v && size == (if v > old(size) then v else old(size))
                && old(Contents()) <= Contents()
    {
      if v > capacity {
        return OutOfRange;
      }
      position := v;
      if position > size {
        size := position;
      }
      var onList := Seek(v);
      r := if onList then Done else NullDereference;
    }

    /** `readInt` of one byte. */
    method ReadByte() returns (b: Option<Byte>)
      requires Valid()
      modifies this`position, this`cur
      ensures Valid() && Contents() == old(Contents())
      ensures b == if old(position) < size then Some(Contents()[old(position)]) else None
      ensures position == if b.Some? then old(position) + 1 else old(position)
    {
      var v := new Byte[1];
      var ok := Read(v, 1);
      b := if ok then Some(v[0]) else None;
    }

    method WriteVaruint32(value: uint32)
      requires Valid()
      modifies this, nodes, memory
      ensures Valid() && Contents() == Written(old(Contents()), old(position), VarBytes(value))
      ensures position == old(position) + |VarBytes(value)| && Grown()
    {
      var tmp := new Byte[5];
      var i := PutVarBytes(value, tmp);
      Write(tmp[..i]);
    }

    /** Fails only at the end of the data, with the cursor there. */
    method ReadVaruint32() returns (r: Option<uint32>)
      requires Valid()
      modifies this`position, this`cur
      ensures Valid() && Contents() == old(Contents())
      ensures (r, position) == Parse(Contents(), old(position), 0, 0)
    {
      ghost var s, start := Contents(), position;
      var result: nat, k: nat := 0, 0;
      while k < 5
        invariant Valid() && Contents() == s && k <= 5 && Fits(result, k)
        invariant Parse(s, start, 0, 0) == Parse(s, position, k, result)
        decreases 5 - k
      {
        var b := ReadByte();
        if b.None? {
          return None;
        }
        GatheredFits(result, b.value, k);
        result := Gathered(result, b.value, k);
        if b.value < 0x80 {
          return Some(result);
        }
        k := k + 1;
      }
      r := Some(result);
    }

    method WriteVarint32(value: int32)
      requires Valid()
      modifies this, nodes, memory
      ensures Valid() && Contents() == Written(old(Contents()), old(position), VarBytes(EncodeZigZag32(value)))
      ensures position == old(position) + |VarBytes(EncodeZigZag32(value))| && Grown()
    {
      WriteVaruint32(EncodeZigZag32(value));
    }

    method ReadVarint32() returns (r: Option<int32>)
      requires Valid()
      modifies this`position, this`cur
      ensures Valid() && Contents() == old(Contents()) && position == Parse(Contents(), old(position), 0, 0).1
      ensures match Parse(Contents(), old(position), 0, 0).0
              case None => r == None
              case Some(u) => u < TWO32 && r == Some(DecodeZigZag32(u))
    {
      ParseBounds(Contents(), position, 0, 0);
      var u := ReadVaruint32();
      r := if u.Some? then Some(DecodeZigZag32(u.value)) else None;
    }

    /** One entry of a list that covers `done` bytes from the cursor on, and the node behind it. */
    method PushIovec(iovs: seq<Iovec>, node: Node, ghost i: nat, npos: nat, len: nat, ghost done: nat)
      returns (more: seq<Iovec>, next: Node?)
      requires Placed() && i < |nodes| && node == nodes[i] && npos + len <= baseSize
      requires position + done == Span(i, baseSize) + npos <= capacity
      requires Covers(iovs, memory, baseSize, position, done)
      ensures position + done + len <= capacity && Covers(more, memory, baseSize, position, done + len)
      ensures npos + len == baseSize && position + done + len < capacity ==>
                && i + 1 < |nodes| && next == nodes[i + 1] && next.size == baseSize
                && position + done + len == Span(i + 1, baseSize)
    {
      StretchMore(memory, baseSize, position, done, i, iovs, Iovec(node.ptr, npos, len));
      more, next := iovs + [Iovec(node.ptr, npos, len)], node.next;
    }

    /** Where the `n` bytes from the cursor on are, block by block. */
    method Stretch(n: nat) returns (iovs: seq<Iovec>)
      requires Placed() && 0 < n <= capacity - position
      ensures Covers(iovs, memory, baseSize, position, n)
    {
      hide Covers;
      var npos: nat := Offset(position, baseSize);
      var ncap: nat := cur.size - npos;
      var node, len: nat := cur, n;
      iovs := [];
      ghost var i: nat, done: nat := Block(position, baseSize), 0;
      CoversNone(memory, baseSize, position);
      SpanOf(position, baseSize);
      while len > 0
        invariant done + len == n && Covers(iovs, memory, baseSize, position, done)
        invariant len > 0 ==> i < |nodes| && node == nodes[i] && npos + ncap == baseSize && ncap > 0
        invariant len > 0 ==> position + done == Span(i, baseSize) + npos
      {
        var took := if ncap >= len then len else ncap;
        var next;
        iovs, next := PushIovec(iovs, node, i, npos, took, done);
        len, done := len - took, done + took;
        if len > 0 {
          node, npos, ncap := next, 0, next.size;
          i := i + 1;
        }
      }
    }

    /** `getReadBuffers`: as many of the next `len` bytes as there are, in place. */
    method GetReadBuffers(len: nat) returns (iovs: seq<Iovec>, n: nat)
      requires Valid()
      ensures n == if len > size - position then size - position else len
      ensures Covers(iovs, memory, baseSize, position, n)
    {
      n := if len > size - position then size - position else len;
      iovs := [];
      if n > 0 {
        iovs := Stretch(n);
      }
    }

    /** `getWriteBuffers`: room for `len` bytes behind the cursor, which the caller will fill. */
    method GetWriteBuffers(len: nat) returns (iovs: seq<Iovec>, n: nat)
      requires Valid()
      modifies this`capacity, this`cur, this`nodes, this`memory, this`blocks, nodes
      ensures Valid() && Contents() == old(Contents()) && Grown() && n == len <= capacity - position
      ensures Covers(iovs, memory, baseSize, position, n)
    {
      n, iovs := len, [];
      if n > 0 {
        MakeRoom(n);
        iovs := Stretch(n);
      }
    }

    /** Cell `k` of a stretch holds the flat byte `k` behind its start. */
    lemma {:induction false} PlacesHold(p: nat, n: nat, k: nat)
      requires Placed() && p + n <= capacity && k < n
      ensures var (a, at) := Places(memory, baseSize, p, n)[k]; at < a.Length && a[at] == Flatten(blocks)[p + k]
      decreases n
    {
      if k < n - 1 {
        PlacesHold(p, n - 1, k);
      } else {
        var i, at := Block(p + k, baseSize), Offset(p + k, baseSize);
        BlockInside(p + k, |nodes|, baseSize);
        SpanOf(p + k, baseSize);
        FlattenSlice(blocks, baseSize, i, at, 1);
        assert Places(memory, baseSize, p, n)[k] == (memory[i], at);
        assert blocks[i][at..at + 1][0] == Flatten(blocks)[p + k..p + k + 1][0];
        assert memory[i][at] == blocks[i][at];
      }
    }
  }

  /** The memory cells that `len` bytes of `base` from `offset` on are. */
  ghost function CellsOf(base: array<Byte>, offset: nat, len: nat): seq<(array<Byte>, nat)> {
    if len == 0 then [] else CellsOf(base, offset, len - 1) + [(base, offset + len - 1)]
  }

  /** The memory cells of a scatter or gather list, in order. */
  ghost function Cells(iovs: seq<Iovec>): seq<(array<Byte>, nat)> {
    if iovs == [] then []
    else
      var last := iovs[|iovs| - 1];
      Cells(iovs[..|iovs| - 1]) + CellsOf(last.base, last.offset, last.len)
  }

  /** The memory cells of the `n` flat positions from `p` on. */
  ghost function Places(memory: seq<array<Byte>>, base: nat, p: nat, n: nat): (cells: seq<(array<Byte>, nat)>)
    requires base > 0 && p + n <= Span(|memory|, base)
    ensures |cells| == n
  {
    if n == 0 then []
    else
      BlockInside(p + n - 1, |memory|, base);
      Places(memory, base, p, n - 1) + [(memory[Block(p + n - 1, base)], Offset(p + n - 1, base))]
  }

  /** The entries of the list are, in order, the cells of the `n` flat positions from `p` on. */
  ghost predicate Covers(iovs: seq<Iovec>, memory: seq<array<Byte>>, base: nat, p: nat, n: nat)
    requires base > 0
  {
    p + n <= Span(|memory|, base) && Cells(iovs) == Places(memory, base, p, n)
  }

  lemma CoversNone(memory: seq<array<Byte>>, base: nat, p: nat)
    requires base > 0 && p <= Span(|memory|, base)
    ensures Covers([], memory, base, p, 0)
  {
  }

  /** One more entry of the list covers the places behind those it covers already. */
  lemma StretchMore(memory: seq<array<Byte>>, base: nat, p: nat, n: nat, i: nat, iovs: seq<Iovec>, v: Iovec)
    requires i < |memory| && v.base == memory[i] && v.offset + v.len <= base && base > 0
             && p + n == Span(i, base) + v.offset
    requires Covers(iovs, memory, base, p, n)
    ensures Covers(iovs + [v], memory, base, p, n + v.len)
  {
    PlacesPiece(memory, base, p, n, i, v.offset, v.len);
    assert (iovs + [v])[..|iovs|] == iovs;
  }

  lemma {:induction false} PlacesPiece(memory: seq<array<Byte>>, base: nat, p: nat, n: nat, i: nat, at: nat, len: nat)
    requires i < |memory| && at + len <= base && base > 0 && p + n == Span(i, base) + at
    ensures p + n + len <= Span(|memory|, base)
    ensures Places(memory, base, p, n + len) == Places(memory, base, p, n) + CellsOf(memory[i], at, len)
  {
    SpanGrows(i, |memory|, base);
    if len > 0 {
      PlacesPiece(memory, base, p, n, i, at, len - 1);
      BlockOf(i, at + len - 1, base);
    }
  }

  /** Back to the start of a buffer, which is before its capacity. */
  method Rewind(b: Buffer)
    requires b.Valid()
    modifies b`position, b`size, b`cur
    ensures b.Valid() && b.Contents() == old(b.Contents()) && b.position == 0
  {
    SpanGrows(0, |b.nodes|, b.baseSize);
    var moved := b.SetPosition(0);
  }

  method WriteVaruints(baseSize: nat, values: seq<uint32>) returns (b: Buffer)
    requires baseSize > 0
    ensures fresh(b) && fresh(b.nodes) && fresh(b.memory)
    ensures b.Valid() && b.Contents() == AllVarBytes(values)
  {
    hide AllVarBytes, Written, VarBytes;
    b := new Buffer(baseSize);
    NoVarBytes();
    var i := 0;
    ghost var codes := values;
    while i < |values|
      invariant 0 <= i <= |values| && fresh(b) && fresh(b.nodes) && fresh(b.memory)
      invariant b.Valid() && b.Contents() == AllVarBytes(codes[..i]) && b.position == b.size
    {
      AllVarBytesPush(codes, i);
      WrittenAtEnd(b.Contents(), VarBytes(codes[i]));
      b.WriteVaruint32(values[i]);
      i := i + 1;
    }
    assert codes[..|values|] == codes;
  }

  method ReadVaruints(b: Buffer, n: nat, ghost values: seq<uint32>) returns (back: seq<uint32>)
    requires b.Valid() && b.position == 0 && b.Contents() == AllVarBytes(values) && n == |values|
    modifies b`position, b`cur
    ensures back == values && b.Valid() && b.position == b.size
  {
    hide AllVarBytes, Parse;
    back := [];
    NoVarBytes();
    var i := 0;
    ghost var codes := values;
    while i < n
      invariant 0 <= i <= n && back == values[..i]
      invariant b.Valid() && b.Contents() == AllVarBytes(codes) && b.position == |AllVarBytes(codes[..i])|
    {
      ParseNext(codes, i);
      var v := b.ReadVaruint32();
      back := back + [v.value];
      i := i + 1;
    }
    assert codes[..n] == codes;
  }

  method WriteVarints(baseSize: nat, values: seq<int32>) returns (b: Buffer)
    requires baseSize > 0
    ensures fresh(b) && fresh(b.nodes) && fresh(b.memory)
    ensures b.Valid() && b.Contents() == AllVarBytes(ZigZags(values))
  {
    hide AllVarBytes, Written, VarBytes;
    b := new Buffer(baseSize);
    NoVarBytes();
    var i := 0;
    ghost var codes := ZigZags(values);
    while i < |values|
      invariant 0 <= i <= |values| && fresh(b) && fresh(b.nodes) && fresh(b.memory)
      invariant b.Valid() && b.Contents() == AllVarBytes(codes[..i]) && b.position == b.size
    {
      AllVarBytesPush(codes, i);
      WrittenAtEnd(b.Contents(), VarBytes(codes[i]));
      b.WriteVarint32(values[i]);
      i := i + 1;
    }
    assert codes[..|values|] == codes;
  }

  method ReadVarints(b: Buffer, n: nat, ghost values: seq<int32>) returns (back: seq<int32>)
    requires b.Valid() && b.position == 0 && b.Contents() == AllVarBytes(ZigZags(values)) && n == |values|
    modifies b`position, b`cur
    ensures back == values && b.Valid() && b.position == b.size
  {
    hide AllVarBytes, Parse;
    back := [];
    NoVarBytes();
    var i := 0;
    ghost var codes := ZigZags(values);
    while i < n
      invariant 0 <= i <= n && back == values[..i]
      invariant b.Valid() && b.Contents() == AllVarBytes(codes) && b.position == |AllVarBytes(codes[..i])|
    {
      ParseNext(codes, i);
      ZigZagRoundTrip(values[i]);
      var v := b.ReadVarint32();
      back := back + [v.value];
      i := i + 1;
    }
    assert codes[..n] == codes;
  }

  /** Numbers written one after the other into a new buffer are read back from its start, and nothing is left to
      read. */
  method VaruintsSurvive(baseSize: nat, values: seq<uint32>) returns (back: seq<uint32>, left: nat)
    requires baseSize > 0
    ensures back == values && left == 0
  {
    var b := WriteVaruints(baseSize, values);
    Rewind(b);
    back := ReadVaruints(b, |values|, values);
    left := b.size - b.position;
  }

  /** The same for signed numbers. */
  method VarintsSurvive(baseSize: nat, values: seq<int32>) returns (back: seq<int32>, left: nat)
    requires baseSize > 0
    ensures back == values && left == 0
  {
    var b := WriteVarints(baseSize, values);
    Rewind(b);
    back := ReadVarints(b, |values|, values);
    left := b.size - b.position;
  }
}
