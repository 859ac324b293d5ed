/** class ByteArray (sylar/bytearray.h, sylar/bytearray.cc): a list of blocks with a cursor, which behaves like one flat
    byte sequence.

    `nodes` is the node list from m_root on; a node pointer is an index into it, and |nodes| stands for the null that
    ends the list. Sizes are unbounded naturals; block contents are whatever the allocation left there. */
module ByteArrays {
  import opened Blocks

  /** What a call that copies bytes out comes to. */
  datatype Outcome = Bytes(bytes: seq<byte>) | OutOfRange | NullDereference

  /** struct iovec: `len` bytes of block `node` from `offset` on. */
  datatype IoVec = IoVec(node: nat, offset: nat, len: nat)

  datatype Buffers = Buffers(iovs: seq<IoVec>, total: nat) | BadNode

  /** What reading n bytes at a position comes to: the flat slice, unless too few are left or there is no node there. */
  function ReadOutcome(flat: seq<byte>, position: nat, size: nat, n: nat): Outcome {
    if position + n > size then OutOfRange
    else if position >= |flat| || position + n > |flat| then NullDereference
    else Bytes(flat[position..position + n])
  }

  /** The buffers over n bytes from an offset in a block on: to the end of that block, then block by block. */
  function Pieces(base: nat, node: nat, npos: nat, n: nat): seq<IoVec>
    requires npos < base
    decreases n
  {
    if n == 0 then []
    else if base - npos >= n then [IoVec(node, npos, n)]
    else [IoVec(node, npos, base - npos)] + Pieces(base, node + 1, 0, n - (base - npos))
  }

  /** The loop that makes them, with those it has. */
  function PiecesAfter(done: seq<IoVec>, base: nat, node: nat, npos: nat, n: nat): seq<IoVec>
    requires npos < base
    decreases n
  {
    if n == 0 then done
    else if base - npos >= n then done + [IoVec(node, npos, n)]
    else PiecesAfter(done + [IoVec(node, npos, base - npos)], base, node + 1, 0, n - (base - npos))
  }

  lemma {:induction false} PiecesAfterAre(done: seq<IoVec>, base: nat, node: nat, npos: nat, n: nat)
    requires npos < base
    ensures PiecesAfter(done, base, node, npos, n) == done + Pieces(base, node, npos, n)
    decreases n
  {
    if base - npos < n {
      PiecesAfterAre(done + [IoVec(node, npos, base - npos)], base, node + 1, 0, n - (base - npos));
    }
  }

  function Ceil(n: nat, base: nat): nat
    requires base >= 1
  {
    n / base + if n % base == 0 then 0 else 1
  }

  lemma CeilCovers(n: nat, base: nat)
    requires base >= 1 && n >= 1
    ensures Ceil(n, base) >= 1
    ensures Start(base, Ceil(n, base)) - base < n <= Start(base, Ceil(n, base))
  {
    BlockOfPosition(base, n);
  }

  /** No block is in the list twice. */
  ghost predicate NoDuplicates(ns: seq<array<byte>>) {
    ns != [] ==> ns[|ns| - 1] !in ns[..|ns| - 1] && NoDuplicates(ns[..|ns| - 1])
  }

  lemma {:induction false} Different(ns: seq<array<byte>>, j: nat, k: nat)
    requires NoDuplicates(ns) && j < |ns| && k < |ns| && j != k
    ensures ns[j] != ns[k]
    decreases |ns|
  {
    var front := ns[..|ns| - 1];
    if j < |front| && k < |front| {
      Different(front, j, k);
    } else {
      assert front[if j < k then j else k] in front;
    }
  }

  lemma OneMoreNode(ns: seq<array<byte>>, a: array<byte>)
    requires NoDuplicates(ns) && a !in ns
    ensures NoDuplicates(ns + [a])
  {
    assert (ns + [a])[..|ns|] == ns;
  }

  class ByteArray {
    const base: nat
    var position: nat
    var capacity: nat
    var size: nat
    var little: bool
    var nodes: seq<array<byte>>
    var cur: nat

    /** All the bytes up to the capacity. */
    ghost var flat: seq<byte>

    ghost function Footprint(): set<object>
      reads this
    {
      {this as object} + set k | 0 <= k < |nodes| :: nodes[k] as object
    }

    /** The node list is as long as the capacity says. */
    ghost predicate Linked()
      reads this`nodes, this`capacity
    {
      && base >= 1 && |nodes| >= 1
      && (forall k :: 0 <= k < |nodes| ==> nodes[k].Length == base)
      && NoDuplicates(nodes)
      && capacity == Start(base, |nodes|)
    }

    /** Block k holds the bytes of the flat sequence from offset k * base on. */
    ghost predicate Tiled()
      reads this`nodes, this`capacity, this`flat, nodes
    {
      |flat| == capacity && TiledFrom(0)
    }

    ghost predicate TiledFrom(k: nat)
      reads this`nodes, this`flat, nodes
      decreases |nodes| - k
    {
      k < |nodes| ==> BlockAt(nodes[k][..], flat, base, k) && TiledFrom(k + 1)
    }

    lemma {:induction false} TiledBlock(k: nat, j: nat)
      requires TiledFrom(k) && k <= j < |nodes|
      ensures BlockAt(nodes[j][..], flat, base, j)
      decreases j - k
    {
      if k < j {
        TiledBlock(k + 1, j);
      }
    }

    lemma {:induction false} BlocksTile(k: nat)
      requires forall j :: k <= j < |nodes| ==> BlockAt(nodes[j][..], flat, base, j)
      ensures TiledFrom(k)
      decreases |nodes| - k
    {
      if k < |nodes| {
        BlocksTile(k + 1);
      }
    }

    /** m_cur is the node that holds the position, null exactly at capacity. */
    ghost predicate CursorOk()
      reads this`nodes, this`capacity, this`cur, this`position
    {
      if cur < |nodes| then Start(base, cur) <= position < Start(base, cur) + base && position < capacity
      else cur == |nodes| && position == capacity
    }

    /** What every operation keeps. */
    ghost predicate Sound()
      reads this, nodes
    {
      Linked() && Tiled() && CursorOk() && position <= size
    }

    /** What every operation but clear keeps. */
    ghost predicate Valid()
      reads this, nodes
    {
      Sound() && size <= capacity
    }

    /** The cursor is the quotient of the position by the block size. */
    lemma CursorIsQuotient()
      requires Linked() && CursorOk()
      ensures cur == position / base && (cur == |nodes| <==> position == capacity)
      ensures position < capacity ==> position % base == position - Start(base, cur)
      ensures position == capacity ==> position % base == 0
    {
      if cur < |nodes| {
        PositionInBlock(base, cur, position - Start(base, cur));
      } else {
        PositionInBlock(base, cur, 0);
      }
    }

    /** Byte i of the flat sequence is byte i % base of node i / base. */
    lemma FlatByte(i: nat)
      requires Linked() && Tiled() && i < capacity
      ensures i / base < |nodes| && flat[i] == nodes[i / base][i % base]
    {
      var k := i / base;
      BlockOfPosition(base, i);
      if k >= |nodes| {
        StartMonotone(base, |nodes|, k);
        assert false;
      }
      TiledBlock(0, k);
      assert nodes[k][..][i % base] == flat[Start(base, k) + i % base];
    }

    constructor (baseSize: nat)
      requires baseSize >= 1
      ensures Valid() && base == baseSize && position == 0 && size == 0 && capacity == baseSize && !little
      ensures fresh(Footprint())
    {
      base := baseSize;
      position, capacity, size, little := 0, baseSize, 0, false;
      var root := new byte[baseSize];
      nodes, cur := [root], 0;
      flat := root[..];
    }

    method SetIsLittleEndian(val: bool)
      modifies this`little
      ensures little == val
    {
      little := val;
    }

    /** One new block at the end of the list. */
    method AppendNode()
      requires Linked() && Tiled()
      modifies this`nodes, this`capacity, this`flat
      ensures Linked() && Tiled() && capacity == old(capacity) + base
      ensures |nodes| == |old(nodes)| + 1 && nodes[..|old(nodes)|] == old(nodes) && fresh(nodes[|old(nodes)|])
      ensures flat[..old(capacity)] == old(flat)
    {
      var block := new byte[base];
      ghost var was, n := flat, |nodes|;
      AllBlocks();
      OneMoreNode(nodes, block);
      nodes := nodes + [block];
      capacity := capacity + base;
      flat := flat + block[..];
      forall k | 0 <= k < |nodes| ensures BlockAt(nodes[k][..], flat, base, k) {
        if k < n {
          assert nodes[k] == old(nodes)[k] && nodes[k][..] == old(nodes[k][..]);
          BlockAtGrown(nodes[k][..], was, block[..], base, k);
        } else {
          NewBlockAt(was, block[..], base, n);
        }
      }
      BlocksTile(0);
    }

    /** addCapaticy: enough blocks are appended for `n` bytes to fit from the position on, and no more. */
    method AddCapacity(n: nat)
      requires Linked() && Tiled() && CursorOk()
      modifies this`nodes, this`capacity, this`flat, this`cur
      ensures Linked() && Tiled() && CursorOk()
      ensures capacity - position >= n && (n > 0 ==> cur < |nodes|)
      ensures if old(capacity) >= position + n then capacity == old(capacity) else capacity - base < position + n
      ensures |old(nodes)| <= |nodes| && nodes[..|old(nodes)|] == old(nodes)
      ensures forall k :: |old(nodes)| <= k < |nodes| ==> fresh(nodes[k])
      ensures fresh(Footprint() - old(Footprint()))
      ensures capacity >= old(capacity) && flat[..old(capacity)] == old(flat)
    {
      if n == 0 {
        return;
      }
      var oldCap := capacity - position;
      if oldCap >= n {
        return;
      }
      var count := Ceil(n - oldCap, base);
      CeilCovers(n - oldCap, base);
      var first := |nodes|;
      AppendNodes(count);
      if oldCap == 0 {
        cur := first;
      }
    }

    method AppendNodes(count: nat)
      requires Linked() && Tiled()
      modifies this`nodes, this`capacity, this`flat
      ensures Linked() && Tiled() && capacity == old(capacity) + Start(base, count)
      ensures |nodes| == |old(nodes)| + count && nodes[..|old(nodes)|] == old(nodes)
      ensures forall k :: |old(nodes)| <= k < |nodes| ==> fresh(nodes[k])
      ensures flat[..old(capacity)] == old(flat)
    {
      for i := 0 to count
        invariant Linked() && Tiled() && capacity == old(capacity) + Start(base, i)
        invariant |nodes| == |old(nodes)| + i && nodes[..|old(nodes)|] == old(nodes)
        invariant forall k :: |old(nodes)| <= k < |nodes| ==> fresh(nodes[k])
        invariant flat[..old(capacity)] == old(flat)
      {
        AppendNode();
      }
    }

    lemma AllBlocks()
      requires Linked() && Tiled()
      ensures forall j :: 0 <= j < |nodes| ==> BlockAt(nodes[j][..], flat, base, j)
    {
      forall j | 0 <= j < |nodes| ensures BlockAt(nodes[j][..], flat, base, j) {
        TiledBlock(0, j);
      }
    }

    /** memcpy into a block is a write in the flat sequence. */
    method CopyIn(k: nat, offset: nat, d: seq<byte>)
      requires Linked() && Tiled() && k < |nodes| && offset + |d| <= base
      modifies nodes[k], this`flat
      ensures Tiled() && Start(base, k) + offset + |d| <= capacity
      ensures flat == Splice(old(flat), Start(base, k) + offset, d)
    {
      ghost var flat0, before := flat, nodes[k][..];
      AllBlocks();
      flat := Splice(flat, Start(base, k) + offset, d);
      FillBlock(nodes[k], offset, d);
      forall j | 0 <= j < |nodes| && j != k ensures BlockAt(nodes[j][..], flat0, base, j) {
        Different(nodes, j, k);
        assert nodes[j][..] == old(nodes[j][..]);
      }
      TiledAgain(flat0, before, k, offset, d);
    }

    lemma TiledAgain(flat0: seq<byte>, before: seq<byte>, k: nat, offset: nat, d: seq<byte>)
      requires k < |nodes| && BlockAt(before, flat0, base, k) && offset + |d| <= base
      requires forall j :: 0 <= j < |nodes| && j != k ==> BlockAt(nodes[j][..], flat0, base, j)
      requires nodes[k][..] == Splice(before, offset, d) && flat == Splice(flat0, Start(base, k) + offset, d)
      ensures TiledFrom(0)
    {
      forall j | 0 <= j < |nodes| ensures BlockAt(nodes[j][..], flat, base, j) {
        BlocksAfterSplice(if j == k then before else nodes[j][..], nodes[j][..], flat0, base, j, k, offset, d);
      }
      BlocksTile(0);
    }

    method CopyPiece(ghost was: seq<byte>, ghost start: nat, d: seq<byte>, bpos: nat, n: nat, npos: nat)
      requires Linked() && Tiled() && cur < |nodes| && npos + n <= base && bpos + n <= |d| && start + |d| <= |was|
      requires start + bpos == Start(base, cur) + npos
      requires flat == Splice(was, start, d[..bpos])
      modifies nodes[cur], this`flat
      ensures Tiled() && flat == Splice(was, start, d[..bpos + n])
    {
      CopyIn(cur, npos, d[bpos..bpos + n]);
      SpliceTwice(was, start, d[..bpos], d[bpos..bpos + n]);
      assert d[..bpos + n] == d[..bpos] + d[bpos..bpos + n];
    }

    /** m_cur and m_position move past `n` bytes of the current block. */
    method Advance(npos: nat, n: nat)
      requires Linked() && CursorOk() && cur < |nodes| && npos == position - Start(base, cur) && npos + n <= base
      modifies this`cur, this`position
      ensures CursorOk() && position == old(position) + n
      ensures cur == if position == Start(base, old(cur)) + base then old(cur) + 1 else old(cur)
    {
      StartMonotone(base, cur + 1, |nodes|);
      if nodes[cur].Length == npos + n {
        cur := cur + 1;
      }
      position := position + n;
    }

    /** The loop of write: block by block from the cursor on. */
    method CopyBlocks(d: seq<byte>)
      requires Linked() && Tiled() && CursorOk() && |d| > 0 && position + |d| <= capacity
      modifies this`position, this`cur, this`flat, nodes
      ensures Tiled() && CursorOk() && position == old(position) + |d|
      ensures flat == Splice(old(flat), old(position), d)
    {
      CursorIsQuotient();
      ghost var was, start := flat, position;
      var npos := position % base;
      var ncap := nodes[cur].Length - npos;
      var bpos := 0;
      while bpos < |d|
        invariant 0 <= bpos <= |d| && position == start + bpos
        invariant Tiled() && CursorOk()
        invariant bpos < |d| ==> cur < |nodes| && npos == position - Start(base, cur) && ncap == base - npos
        invariant flat == Splice(was, start, d[..bpos])
      {
        var n := if ncap >= |d| - bpos then |d| - bpos else ncap;
        CopyPiece(was, start, d, bpos, n, npos);
        Advance(npos, n);
        bpos := bpos + n;
        if bpos < |d| {
          ncap := nodes[cur].Length;
          npos := 0;
        }
      }
      assert d[..bpos] == d;
    }

    /** The bytes at the position are replaced, and the capacity grows by the blocks needed. */
    method Write(d: seq<byte>)
      requires Sound()
      modifies this, nodes
      ensures Sound() && (old(Valid()) ==> Valid()) && little == old(little)
      ensures fresh(Footprint() - old(Footprint()))
      ensures position == old(position) + |d|
      ensures size == if position > old(size) then position else old(size)
      ensures |flat| == capacity >= old(capacity)
      ensures flat[..old(position)] == old(flat[..position]) && flat[old(position)..position] == d
      ensures if position <= old(capacity) then flat == Splice(old(flat), old(position), d)
              else capacity - base < position <= capacity
    {
      if |d| == 0 {
        return;
      }
      Overwrite(d);
      if position > size {
        size := position;
      }
    }

    method Overwrite(d: seq<byte>)
      requires Linked() && Tiled() && CursorOk() && |d| > 0
      modifies this`position, this`cur, this`nodes, this`capacity, this`flat, nodes
      ensures Linked() && Tiled() && CursorOk() && fresh(Footprint() - old(Footprint()))
      ensures position == old(position) + |d| <= capacity && capacity >= old(capacity)
      ensures flat[..old(position)] == old(flat[..position]) && flat[old(position)..position] == d
      ensures if position <= old(capacity) then flat == Splice(old(flat), old(position), d)
              else capacity - base < position
    {
      AddCapacity(|d|);
      ghost var grown := flat;
      CopyBlocks(d);
      SpliceSlices(old(flat), grown, position - |d|, d);
    }

    /** The bytes of a piece of a block, seen in the flat sequence. */
    lemma Piece(k: nat, npos: nat, n: nat)
      requires Linked() && Tiled() && k < |nodes| && npos + n <= base
      ensures Start(base, k) + npos + n <= |flat|
      ensures nodes[k][npos..npos + n] == flat[Start(base, k) + npos..Start(base, k) + npos + n]
    {
      TiledBlock(0, k);
      assert nodes[k][npos..npos + n] == nodes[k][..][npos..npos + n];
      SliceOfSlice(flat, Start(base, k), Start(base, k) + base, npos, npos + n);
    }

    /** memcpy from a block, at the end of what was copied so far. */
    method CopyOut(buf: seq<byte>, ghost start: nat, k: nat, npos: nat, n: nat) returns (r: seq<byte>)
      requires Linked() && Tiled() && k < |nodes| && npos + n <= base
      requires start + |buf| == Start(base, k) + npos && start + |buf| <= |flat| && buf == flat[start..start + |buf|]
      ensures start + |buf| + n <= |flat| && |r| == |buf| + n && r == flat[start..start + |buf| + n]
    {
      Piece(k, npos, n);
      SliceJoin(flat, start, start + |buf|, start + |buf| + n);
      r := buf + nodes[k][npos..npos + n];
    }

    /** read(buf, size) */
    method Read(n: nat) returns (r: Outcome)
      requires Sound()
      modifies this`position, this`cur
      ensures r == ReadOutcome(flat, old(position), size, n)
      ensures r.Bytes? ==> Sound() && position == old(position) + n
      ensures r.OutOfRange? ==> position == old(position) && cur == old(cur)
    {
      if n > size - position {
        return OutOfRange;
      }
      if cur == |nodes| {
        return NullDereference;
      }
      r := CopyOutBlocks(n);
    }

    /** The loop of read. */
    method CopyOutBlocks(n: nat) returns (r: Outcome)
      requires Linked() && Tiled() && CursorOk() && cur < |nodes|
      modifies this`position, this`cur
      ensures r == ReadOutcome(flat, old(position), |flat| + n, n)
      ensures r.Bytes? ==> CursorOk() && position == old(position) + n
    {
      CursorIsQuotient();
      ghost var start := position;
      var npos := position % base;
      var ncap := nodes[cur].Length - npos;
      var buf := [];
      while |buf| < n
        invariant |buf| <= n && position == start + |buf| && CursorOk()
        invariant |buf| < n ==> cur < |nodes| && npos == position - Start(base, cur) && ncap == base - npos
        invariant buf == flat[start..start + |buf|]
      {
        var m := if ncap >= n - |buf| then n - |buf| else ncap;
        buf := CopyOut(buf, start, cur, npos, m);
        Advance(npos, m);
        if |buf| < n {
          if cur == |nodes| {
            return NullDereference;
          }
          ncap := nodes[cur].Length;
          npos := 0;
        }
      }
      return Bytes(buf);
    }

    /** read(buf, size, position) const: it starts in the current node, whatever position it is given. */
    method ReadAt(n: nat, at: nat) returns (r: Outcome)
      requires Sound()
      ensures r == if n > size - position then OutOfRange
                   else if position == capacity then NullDereference
                   else ReadOutcome(flat, Start(base, cur) + at % base, |flat| + n, n)
      ensures at == position ==> r == ReadOutcome(flat, position, size, n)
    {
      if n > size - position {
        return OutOfRange;
      }
      CursorIsQuotient();
      if cur == |nodes| {
        return NullDereference;
      }
      r := WalkOut(cur, at % base, n);
    }

    /** The loop of the positional read, on a local node pointer. */
    method WalkOut(first: nat, offset: nat, n: nat) returns (r: Outcome)
      requires Linked() && Tiled() && first < |nodes| && offset < base
      ensures r == ReadOutcome(flat, Start(base, first) + offset, |flat| + n, n)
    {
      var node: nat, npos: nat := first, offset;
      ghost var start := Start(base, first) + offset;
      StartMonotone(base, first + 1, |nodes|);
      var ncap := nodes[node].Length - npos;
      var buf := [];
      while |buf| < n
        invariant |buf| <= n && start + |buf| <= capacity && npos < base
        invariant |buf| < n ==> node < |nodes| && Start(base, node) + npos == start + |buf| && ncap == base - npos
        invariant buf == flat[start..start + |buf|]
      {
        var m := if ncap >= n - |buf| then n - |buf| else ncap;
        buf := CopyOut(buf, start, node, npos, m);
        if |buf| < n {
          node := node + 1;
          if node == |nodes| {
            return NullDereference;
          }
          ncap := nodes[node].Length;
          npos := 0;
        }
      }
      return Bytes(buf);
    }

    method ToString() returns (r: Outcome)
      requires Sound()
      ensures r == if size == position then Bytes([]) else ReadOutcome(flat, position, size, size - position)
      ensures Valid() ==> r == Bytes(flat[position..size])
    {
      if size == position {
        return Bytes([]);
      }
      r := ReadAt(size - position, position);
    }

    /** setPosition; false is the out_of_range exception. */
    method SetPosition(v: nat) returns (ok: bool)
      requires Sound()
      modifies this`position, this`size, this`cur
      ensures ok <==> v <= capacity
      ensures ok ==> position == v && size == if v > old(size) then v else old(size)
      ensures !ok ==> position == old(position) && size == old(size) && cur == old(cur)
      ensures Sound() && (old(Valid()) ==> Valid())
    {
      if v > capacity {
        return false;
      }
      position := v;
      if position > size {
        size := position;
      }
      cur := NodeOf(v);
      return true;
    }

    /** The walk of setPosition from the root. */
    method NodeOf(v: nat) returns (k: nat)
      requires Linked() && v <= capacity
      ensures if k < |nodes| then Start(base, k) <= v < Start(base, k) + base && v < capacity
              else k == |nodes| && v == capacity
    {
      k := 0;
      var left: nat := v;
      while left > nodes[k].Length
        invariant k < |nodes| && left + Start(base, k) == v
      {
        StartMonotone(base, k + 1, |nodes|);
        left := left - nodes[k].Length;
        k := k + 1;
      }
      StartMonotone(base, k + 1, |nodes|);
      if left == nodes[k].Length {
        k := k + 1;
      }
    }

    ghost predicate InBlocks(iovs: seq<IoVec>)
      reads this`nodes
    {
      forall i :: 0 <= i < |iovs| ==>
        iovs[i].node < |nodes| && iovs[i].offset + iovs[i].len <= nodes[iovs[i].node].Length
    }

    /** The bytes a list of buffers covers, one after the other. */
    ghost function Gathered(iovs: seq<IoVec>): seq<byte>
      requires InBlocks(iovs)
      reads this`nodes, nodes
    {
      if iovs == [] then []
      else nodes[iovs[0].node][iovs[0].offset..iovs[0].offset + iovs[0].len] + Gathered(iovs[1..])
    }

    /** The pieces of n bytes from an offset in a block on hold exactly the flat slice. */
    lemma PiecesHoldSlice(node: nat, npos: nat, n: nat)
      requires Linked() && Tiled() && node < |nodes| && npos < base && Start(base, node) + npos + n <= capacity
      ensures InBlocks(Pieces(base, node, npos, n))
      ensures Gathered(Pieces(base, node, npos, n)) == flat[Start(base, node) + npos..Start(base, node) + npos + n]
    {
      PiecesHold(node, npos, n, Start(base, node) + npos, Start(base, node) + npos + n);
    }

    lemma {:induction false} PiecesHold(node: nat, npos: nat, n: nat, start: nat, end: nat)
      requires Linked() && Tiled() && node < |nodes| && npos < base
      requires start == Start(base, node) + npos && end == start + n <= capacity
      ensures InBlocks(Pieces(base, node, npos, n)) && Gathered(Pieces(base, node, npos, n)) == flat[start..end]
      decreases n
    {
      var m := base - npos;
      if m < n {
        PiecesHold(node + 1, 0, n - m, start + m, end);
        FirstPiece(node, npos, m, Pieces(base, node + 1, 0, n - m), end);
      } else if n > 0 {
        FirstPiece(node, npos, n, [], end);
        assert [IoVec(node, npos, n)] + [] == [IoVec(node, npos, n)];
      }
    }

    lemma FirstPiece(node: nat, npos: nat, m: nat, rest: seq<IoVec>, end: nat)
      requires Linked() && Tiled() && node < |nodes| && npos + m <= base && InBlocks(rest)
      requires Start(base, node) + npos + m <= end <= |flat|
      requires Gathered(rest) == flat[Start(base, node) + npos + m..end]
      ensures InBlocks([IoVec(node, npos, m)] + rest)
      ensures Gathered([IoVec(node, npos, m)] + rest) == flat[Start(base, node) + npos..end]
    {
      var p, first := Start(base, node) + npos, nodes[node][npos..npos + m];
      GatheredPrepend(IoVec(node, npos, m), rest);
      assert Gathered([IoVec(node, npos, m)] + rest) == first + Gathered(rest);
      Piece(node, npos, m);
      SlicesJoin(flat, p, p + m, end, first, Gathered(rest));
    }

    lemma GatheredPrepend(v: IoVec, iovs: seq<IoVec>)
      requires InBlocks(iovs) && v.node < |nodes| && v.offset + v.len <= nodes[v.node].Length
      ensures InBlocks([v] + iovs)
      ensures Gathered([v] + iovs) == nodes[v.node][v.offset..v.offset + v.len] + Gathered(iovs)
    {
      assert ([v] + iovs)[1..] == iovs;
    }

    /** The loop of both forms of getReadBuffers. */
    method Gather(first: nat, offset: nat, n: nat) returns (r: Buffers)
      requires Linked() && first < |nodes| && offset < base
      ensures r.BadNode? <==> Start(base, first) + offset + n > capacity
      ensures r.Buffers? ==> r == Buffers(Pieces(base, first, offset, n), n)
    {
      ghost var end := Start(base, first) + offset + n;
      StartMonotone(base, first + 1, |nodes|);
      ghost var all := PiecesAfter([], base, first, offset, n);
      var node: nat, npos: nat, iovs, len: nat := first, offset, [], n;
      var ncap := nodes[node].Length - npos;
      while len > 0
        invariant node < |nodes| && npos < base && ncap == base - npos && len <= n
        invariant len > 0 ==> Start(base, node) + npos + len == end
        invariant len == 0 ==> end <= capacity
        invariant PiecesAfter(iovs, base, node, npos, len) == all
      {
        StartMonotone(base, node + 1, |nodes|);
        if ncap >= len {
          iovs := iovs + [IoVec(node, npos, len)];
          len := 0;
        } else {
          iovs := iovs + [IoVec(node, npos, ncap)];
          len := len - ncap;
          node := node + 1;
          if node == |nodes| {
            return BadNode;
          }
          ncap := nodes[node].Length;
          npos := 0;
        }
      }
      PiecesAfterAre([], base, first, offset, n);
      return Buffers(iovs, n);
    }

    /** The same, and what the buffers hold. */
    method GatherSlice(first: nat, offset: nat, n: nat) returns (r: Buffers)
      requires Linked() && Tiled() && first < |nodes| && offset < base
      ensures var start := Start(base, first) + offset;
              && (r.BadNode? <==> start + n > capacity)
              && (r.Buffers? ==> r.total == n && InBlocks(r.iovs) && Gathered(r.iovs) == flat[start..start + n])
    {
      r := Gather(first, offset, n);
      if r.Buffers? {
        PiecesHoldSlice(first, offset, n);
      }
    }

    /** getReadBuffers(buffers, len): in a valid array, buffers over exactly the bytes that can be read, at most len. */
    method GetReadBuffers(len: nat) returns (r: Buffers)
      requires Sound()
      ensures Valid() ==> r.Buffers?
      ensures r.BadNode? <==>
              len > 0 && size > position && (if len > size - position then size else position + len) > capacity
      ensures r.Buffers? ==> r.total == (if len > size - position then size - position else len) && InBlocks(r.iovs)
      ensures r.Buffers? ==> position + r.total <= |flat| && Gathered(r.iovs) == flat[position..position + r.total]
    {
      var n := if len > size - position then size - position else len;
      if n == 0 {
        return Buffers([], 0);
      }
      CursorIsQuotient();
      if cur == |nodes| {
        return BadNode;
      }
      r := GatherSlice(cur, position % base, n);
    }

    /** getReadBuffers(buffers, len, position): the length is clamped by the array's own position, so buffers asked for
        further on may end behind the size, and the call goes wrong exactly when they would end behind the capacity. */
    method GetReadBuffersAt(len: nat, at: nat) returns (r: Buffers)
      requires Sound()
      ensures var n := if len > size - position then size - position else len;
              if n == 0 then r == Buffers([], 0)
              else if at + n > capacity then r.BadNode?
              else r.Buffers? && r.total == n && InBlocks(r.iovs) && Gathered(r.iovs) == flat[at..at + n]
    {
      var n := if len > size - position then size - position else len;
      if n == 0 {
        return Buffers([], 0);
      }
      BlockOfPosition(base, at);
      var node := NodeAt(at / base);
      if node == |nodes| {
        StartMonotone(base, |nodes|, at / base);
        return BadNode;
      }
      r := GatherSlice(node, at % base, n);
    }

    /** The walk of the positional getReadBuffers from the root. */
    method NodeAt(k: nat) returns (node: nat)
      ensures node == if k < |nodes| then k else |nodes|
    {
      var count := k;
      node := 0;
      while count > 0 && node < |nodes|
        invariant count >= 0 && node <= |nodes| && node + count == k
      {
        node := node + 1;
        count := count - 1;
      }
    }

    /** clear: the size is not reset, so the array stays valid exactly when everything fitted in one block. */
    method Clear()
      requires Sound()
      modifies this
      ensures Sound() && position == 0 && capacity == base && flat == old(flat[..base])
      ensures size == old(size) && little == old(little)
      ensures Valid() <==> old(size) <= base
      ensures Footprint() <= old(Footprint())
    {
      TiledBlock(0, 0);
      position := 0;
      capacity := base;
      nodes := nodes[..1];
      cur := 0;
      flat := flat[..base];
      BlocksTile(0);
    }
  }

  /** memcpy */
  method FillBlock(a: array<byte>, offset: nat, d: seq<byte>)
    requires offset + |d| <= a.Length
    modifies a
    ensures a[..] == Splice(old(a[..]), offset, d)
  {
    forall i | 0 <= i < |d| {
      a[offset + i] := d[i];
    }
  }
}
