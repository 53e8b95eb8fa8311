/** The small-memory heap of mem.c: headers linked by offsets, first fit from a lowest-free
    hint, and coalescing on free.  The 32-bit build without memory tracing is modelled. */
module SmallHeap {
  import opened Tiling

  /** SIZEOF_STRUCT_MEM, MIN_SIZE_ALIGNED and MIN_SIZE. */
  const HDR := 12
  const MIN_SIZE := 12
  /** What a header write leaves in the bytes it covers; never inspected. */
  const HEADER_BYTE := -1

  /** Pointers as offsets from the start of the heap. */
  datatype Ptr = Null | At(off: int)

  /** rt_malloc's rounding of a request. */
  function Rounded(size: nat): (r: nat)
    ensures size <= r && r % 4 == 0 && r >= MIN_SIZE
  {
    if AlignUp(size) < MIN_SIZE then MIN_SIZE else AlignUp(size)
  }

  // ---- Header links as a function of the blocks -----------------------------------------------

  /** Each header agrees with its block.  `prev` is claimed for every block but the last, whose
      `prev` the code lets go stale. */
  ghost predicate Linked(s: set<Block>, next: map<int, int>, prev: map<int, int>, used: map<int, bool>, end: int) {
    && (forall b :: b in s ==>
          && b.at in next && b.at in used && used[b.at] == b.used
          && next[b.at] == (if b.at == end then end else b.End())
          && (b.End() < end ==> b.End() in prev && prev[b.End()] == b.at))
    && 0 in prev && prev[0] == 0
  }

  ghost predicate Fine(s: set<Block>, end: int) {
    && Apart(s)
    && (forall b :: b in s ==> b.len >= HDR && 0 <= b.at && b.End() <= end + HDR)
    && Block(end, HDR, true) in s
  }

  lemma LinkSplit(s: set<Block>, next: map<int, int>, prev: map<int, int>, used: map<int, bool>, end: int, b: Block, n: int)
    requires Fine(s, end) && Linked(s, next, prev, used, end)
    requires b in s && b.at != end && HDR <= n && n + HDR <= b.len
    ensures
      var c := b.at + n;
      var prev1 := prev[c := b.at];
      Linked(s - {b} + {Block(b.at, n, true), Block(c, b.len - n, false)},
             next[c := b.End()][b.at := c],
             if b.End() != end then prev1[b.End() := c] else prev1,
             used[c := false][b.at := true], end)
  {
  }

  lemma LinkMerge(s: set<Block>, next: map<int, int>, prev: map<int, int>, used: map<int, bool>, end: int, b: Block, c: Block)
    requires Fine(s, end) && Linked(s, next, prev, used, end)
    requires b in s && c in s && c.at == b.End() && c.at != end && !b.used
    ensures Linked(s - {b, c} + {Block(b.at, b.len + c.len, false)},
                   next[b.at := c.End()], prev[c.End() := b.at], used, end)
  {
  }

  lemma LinkMark(s: set<Block>, next: map<int, int>, prev: map<int, int>, used: map<int, bool>, end: int, b: Block, u: bool)
    requires Fine(s, end) && Linked(s, next, prev, used, end)
    requires b in s
    ensures Linked(s - {b} + {b.(used := u)}, next, prev, used[b.at := u], end)
  {
  }

  /** Blocks are aligned, and every block but the end marker has data bytes. */
  ghost predicate Proper(l: Layout) {
    forall i :: 0 <= i < |l| ==> l[i].at % 4 == 0 && l[i].len % 4 == 0 && (i < |l| - 1 ==> l[i].len > HDR)
  }

  /** The headers describe the tiling `l` of the heap, which ends in the used end marker. */
  ghost predicate Shaped(l: Layout, next: map<int, int>, prev: map<int, int>, used: map<int, bool>, end: int) {
    && Tiles(l, HDR, 0, end + HDR)
    && |l| >= 2 && l[|l| - 1] == Block(end, HDR, true)
    && Linked(Blocks(l), next, prev, used, end)
    && Proper(l)
  }

  lemma TilesFine(l: Layout, end: int)
    requires Tiles(l, HDR, 0, end + HDR) && |l| >= 2 && l[|l| - 1] == Block(end, HDR, true)
    ensures Fine(Blocks(l), end)
  {
    BlocksApart(l, HDR, 0, end + HDR);
    assert l[|l| - 1] in l;
  }

  lemma Inner(l: Layout, k: nat, end: int)
    requires Tiles(l, HDR, 0, end + HDR) && |l| >= 2 && l[|l| - 1] == Block(end, HDR, true) && k + 1 < |l|
    ensures l[k] in Blocks(l) && l[k + 1] in Blocks(l)
    ensures 0 <= l[k].at < end && HDR <= l[k].len && l[k].End() == l[k + 1].at <= end
    ensures l[0].at == 0
  {
    TilesOrdered(l, HDR, 0, end + HDR);
  }

  /** What the header of block `k` holds. */
  lemma HeaderAt(l: Layout, next: map<int, int>, prev: map<int, int>, used: map<int, bool>, end: int, k: nat)
    requires Shaped(l, next, prev, used, end) && k + 1 < |l|
    ensures l[k].at in next && l[k].at in used && l[k].at in prev
    ensures next[l[k].at] == l[k].End() == l[k + 1].at && used[l[k].at] == l[k].used
    ensures prev[l[k].at] == if k == 0 then 0 else l[k - 1].at
    ensures l[k + 1].at in used && l[k + 1].at in next && used[l[k + 1].at] == l[k + 1].used
    ensures 0 <= l[k].at < l[k + 1].at <= end && l[k].at % 4 == 0 && HDR <= l[k].len
    ensures k > 0 ==> 0 <= l[k - 1].at < l[k].at
    ensures l[k + 1].at == end <==> k + 2 == |l|
    ensures l[0].at == 0
    ensures end in used && used[end] && end in next && next[end] == end
  {
    hide Tiles; hide Apart;
    TilesFine(l, end);
    Inner(l, k, end);
    if k > 0 { Inner(l, k - 1, end); }
    if k + 2 < |l| { Inner(l, k + 1, end); }
  }

  lemma SplitShape(l: Layout, next: map<int, int>, prev: map<int, int>, used: map<int, bool>, end: int, k: nat, n: int)
    requires Shaped(l, next, prev, used, end) && k + 1 < |l| && n % 4 == 0 && HDR < n && n + HDR < l[k].len
    ensures
      var b, c := l[k], l[k].at + n;
      var prev1 := prev[c := b.at];
      Shaped(Split(l, k, n), next[c := b.End()][b.at := c],
             if b.End() != end then prev1[b.End() := c] else prev1,
             used[c := false][b.at := true], end)
  {
    hide Split; hide Tiles; hide Apart; hide Linked; hide Blocks; hide Proper;
    TilesFine(l, end);
    Inner(l, k, end);
    LinkSplit(Blocks(l), next, prev, used, end, l[k], n);
    SplitBlocks(l, k, n, end);
  }

  lemma SplitProper(l: Layout, k: nat, n: int)
    requires Proper(l) && k + 1 < |l| && HDR < n && n + HDR < l[k].len && n % 4 == 0
    ensures Proper(Split(l, k, n))
  {
    var r := Split(l, k, n);
    assert forall i :: 0 <= i < k ==> r[i] == l[i];
    assert forall i :: k + 1 < i < |r| ==> r[i] == l[i - 1];
  }

  lemma SplitBlocks(l: Layout, k: nat, n: int, end: int)
    requires Tiles(l, HDR, 0, end + HDR) && k + 1 < |l| && HDR < n && n + HDR < l[k].len
    requires Proper(l) && n % 4 == 0
    ensures Tiles(Split(l, k, n), HDR, 0, end + HDR) && |Split(l, k, n)| == |l| + 1
    ensures Split(l, k, n)[|l|] == l[|l| - 1] && Proper(Split(l, k, n))
    ensures Blocks(Split(l, k, n)) ==
            Blocks(l) - {l[k]} + {Block(l[k].at, n, true), Block(l[k].at + n, l[k].len - n, false)}
  {
    hide Tiles; hide Proper;
    var b := l[k];
    var a, c := Block(b.at, n, true), Block(b.at + n, b.len - n, false);
    SplitProper(l, k, n);
    SplitKeeps(l, k, n, HDR, 0, end + HDR);
    BlocksReplace(l, k, 1, [a, c], HDR, 0, end + HDR);
    assert l[k..k + 1] == [b] && Blocks([b]) == {b} && Blocks([a, c]) == {a, c};
  }

  lemma MergeShape(l: Layout, next: map<int, int>, prev: map<int, int>, used: map<int, bool>, end: int, k: nat)
    requires Shaped(l, next, prev, used, end) && k + 2 < |l| && !l[k].used && !l[k + 1].used
    ensures Shaped(Merge(l, k), next[l[k].at := l[k + 1].End()], prev[l[k + 1].End() := l[k].at], used, end)
    ensures |Merge(l, k)| == |l| - 1 && Merge(l, k)[k].at == l[k].at && !Merge(l, k)[k].used
    ensures Live(Merge(l, k)) == Live(l)
  {
    hide Merge; hide Tiles; hide Apart; hide Linked; hide Blocks; hide Proper;
    TilesFine(l, end);
    Inner(l, k, end);
    Inner(l, k + 1, end);
    LinkMerge(Blocks(l), next, prev, used, end, l[k], l[k + 1]);
    MergeBlocks(l, k, end);
  }

  lemma MergeBlocks(l: Layout, k: nat, end: int)
    requires Tiles(l, HDR, 0, end + HDR) && k + 2 < |l| && !l[k].used && !l[k + 1].used && Proper(l)
    ensures Tiles(Merge(l, k), HDR, 0, end + HDR) && |Merge(l, k)| == |l| - 1
    ensures Merge(l, k)[k].at == l[k].at && !Merge(l, k)[k].used && Live(Merge(l, k)) == Live(l)
    ensures Merge(l, k)[|l| - 2] == l[|l| - 1] && Proper(Merge(l, k))
    ensures Blocks(Merge(l, k)) == Blocks(l) - {l[k], l[k + 1]} + {Block(l[k].at, l[k].len + l[k + 1].len, false)}
  {
    hide Tiles;
    var a := Block(l[k].at, l[k].len + l[k + 1].len, false);
    MergeKeeps(l, k, HDR, 0, end + HDR);
    MergeLive(l, k);
    BlocksReplace(l, k, 2, [a], HDR, 0, end + HDR);
    assert l[k..k + 2] == [l[k], l[k + 1]] && Blocks([l[k], l[k + 1]]) == {l[k], l[k + 1]} && Blocks([a]) == {a};
  }

  lemma MarkShape(l: Layout, next: map<int, int>, prev: map<int, int>, used: map<int, bool>, end: int, k: nat, u: bool)
    requires Shaped(l, next, prev, used, end) && k + 1 < |l|
    ensures Shaped(Replace(l, k, 1, [l[k].(used := u)]), next, prev, used[l[k].at := u], end)
  {
    hide Tiles; hide Apart; hide Linked; hide Blocks;
    TilesFine(l, end);
    Inner(l, k, end);
    LinkMark(Blocks(l), next, prev, used, end, l[k], u);
    MarkBlocks(l, k, u, HDR, 0, end + HDR);
  }

  // ---- Contents ---------------------------------------------------------------------------------

  function Bytes(d: seq<int>, off: int, n: int): seq<int> {
    if 0 <= off && 0 <= n && off + n <= |d| then d[off..off + n] else []
  }

  lemma BytesPrefix(d: seq<int>, off: int, n: int, m: int)
    requires 0 <= off && 0 <= m <= n && off + n <= |d|
    ensures |Bytes(d, off, n)| == n && Bytes(d, off, m) == Bytes(d, off, n)[..m]
  {
  }

  function Peak(a: int, b: int): int { if a < b then b else a }

  function Min(a: int, b: int): (m: int)
    ensures m <= a && m <= b && (m == a || m == b)
  {
    if a < b then a else b
  }

  /** The data areas of the blocks in `s` hold the same bytes in both images. */
  ghost predicate SameData(d0: seq<int>, d1: seq<int>, s: set<Block>) {
    |d0| == |d1| && forall b :: b in s ==> Bytes(d1, b.at + HDR, b.len - HDR) == Bytes(d0, b.at + HDR, b.len - HDR)
  }

  /** Does a header written at `p` stay clear of the data of every block in `s`? */
  ghost predicate Clear(p: int, s: set<Block>) {
    forall b :: b in s ==> p <= b.at || b.End() <= p
  }

  lemma HeadersClear(l: Layout, end: int, k: nat)
    requires Tiles(l, HDR, 0, end + HDR) && k < |l|
    ensures Clear(l[k].at, Live(l))
  {
    BlocksApart(l, HDR, 0, end + HDR);
  }

  /** A header written behind the first `n` bytes of block `k` leaves those bytes and every other
      block alone. */
  lemma NewHeaderClear(l: Layout, end: int, k: nat, n: int, j: nat)
    requires Tiles(l, HDR, 0, end + HDR) && k < |l| && j < |l| && HDR <= n <= l[k].len
    ensures Clear(l[k].at + n, Blocks(l) - {l[k]} + {Block(l[k].at, n, true)})
    ensures Clear(l[j].at, Blocks(l) - {l[k]} + {Block(l[k].at, n, true)})
  {
    BlocksApart(l, HDR, 0, end + HDR);
    assert l[k] in Blocks(l) && l[j] in Blocks(l);
  }

  lemma SameDataTrans(d0: seq<int>, d1: seq<int>, d2: seq<int>, s: set<Block>)
    requires SameData(d0, d1, s) && SameData(d1, d2, s)
    ensures SameData(d0, d2, s)
  {
  }

  // ---- The lowest-free hint ---------------------------------------------------------------------

  /** The hint points at a free block or at the end marker. */
  ghost predicate HintAt(l: Layout, p: int) {
    exists i :: 0 <= i < |l| && l[i].at == p && (i == |l| - 1 || !l[i].used)
  }

  /** The hint is no higher than any free block. */
  ghost predicate HintBelow(l: Layout, p: int) {
    forall i :: 0 <= i < |l| && !l[i].used ==> p <= l[i].at
  }

  lemma Increasing(l: Layout, hi: int, k: nat)
    requires Tiles(l, HDR, 0, hi) && k < |l|
    ensures forall i :: 0 <= i < |l| && i != k ==> l[i].at != l[k].at
    ensures k > 0 ==> l[k - 1].at < l[k].at
  {
    TilesOrdered(l, HDR, 0, hi);
  }

  lemma MergeHint(l: Layout, k: nat, p: int, hi: int)
    requires Tiles(l, HDR, 0, hi) && k + 2 < |l| && !l[k].used && !l[k + 1].used && HintAt(l, p)
    ensures var q := if p == l[k + 1].at then l[k].at else p;
            HintAt(Merge(l, k), q) && (HintBelow(l, p) ==> HintBelow(Merge(l, k), q))
  {
    Increasing(l, hi, k + 1);
    hide Tiles;
    var r := Merge(l, k);
    assert forall i :: 0 <= i < k ==> r[i] == l[i];
    assert forall i :: k < i < |r| ==> r[i] == l[i + 1];
    var i :| 0 <= i < |l| && l[i].at == p && (i == |l| - 1 || !l[i].used);
    var j := if i <= k then i else i - 1;
    assert r[j].at == if i == k + 1 then l[k].at else l[i].at;
  }

  /** Freeing block `k` leaves at most its own neighbourhood to merge. */
  lemma DropReady(l: Layout, k: nat, p: int)
    requires k + 1 < |l| && l[k].used && Coalesced(l) && HintAt(l, p)
    ensures var r := Drop(l, k);
            && |r| == |l| && r[k] == l[k].(used := false) && CoalescedBut(r, k)
            && (k + 2 < |r| ==> r[k + 1].used || r[k + 2].used)
    ensures var q := if l[k].at < p then l[k].at else p;
            HintAt(Drop(l, k), q) && (HintBelow(l, p) ==> HintBelow(Drop(l, k), q))
  {
    var r := Drop(l, k);
    assert r == l[k := l[k].(used := false)];
    var i :| 0 <= i < |l| && l[i].at == p && (i == |l| - 1 || !l[i].used);
    assert r[i].at == p && r[k].at == l[k].at;
  }

  /** Splitting free block `k` for a request: merging stays unnecessary, and a hint at another
      block survives. */
  lemma SplitReady(l: Layout, k: nat, n: int, p: int)
    requires k + 1 < |l| && !l[k].used && Coalesced(l) && HintAt(l, p) && n > 0
    ensures var r := Split(l, k, n);
            && |r| == |l| + 1 && r[k].at == l[k].at && Coalesced(r)
            && (p != l[k].at ==> HintAt(r, p)) && (HintBelow(l, p) ==> HintBelow(r, p))
  {
    var r := Split(l, k, n);
    assert forall i :: 0 <= i < k ==> r[i] == l[i];
    assert forall i :: k + 1 < i < |r| ==> r[i] == l[i - 1];
    var i :| 0 <= i < |l| && l[i].at == p && (i == |l| - 1 || !l[i].used);
    if p != l[k].at {
      var j := if i < k then i else i + 1;
      assert r[j] == l[i];
    }
    if HintBelow(l, p) {
      assert p <= l[k].at;
    }
  }

  lemma TakeReady(l: Layout, k: nat, p: int)
    requires k + 1 < |l| && !l[k].used && Coalesced(l) && HintAt(l, p)
    ensures var r := Take(l, k);
            && |r| == |l| && r[k].at == l[k].at && Coalesced(r)
            && (p != l[k].at ==> HintAt(r, p)) && (HintBelow(l, p) ==> HintBelow(r, p))
  {
    var r := Take(l, k);
    assert r == l[k := l[k].(used := true)];
    var i :| 0 <= i < |l| && l[i].at == p && (i == |l| - 1 || !l[i].used);
    if p != l[k].at {
      assert r[i] == l[i];
    }
  }

  /** Shrinking used block `k` to `n` bytes: what is left to merge, and the hint. */
  lemma ShrinkReady(l: Layout, k: nat, n: int, p: int)
    requires k + 1 < |l| && l[k].used && Coalesced(l) && HintAt(l, p)
    ensures var r := Split(l, k, n);
            && |r| == |l| + 1 && r[k].used && r[k + 1] == Block(l[k].at + n, l[k].len - n, false)
            && CoalescedBut(r, k + 1) && (k + 3 < |r| ==> r[k + 2].used || r[k + 3].used)
            && HintAt(r, p)
  {
    var r := Split(l, k, n);
    assert forall i :: 0 <= i < k ==> r[i] == l[i];
    assert forall i :: k + 1 < i < |r| ==> r[i] == l[i - 1];
    var i :| 0 <= i < |l| && l[i].at == p && (i == |l| - 1 || !l[i].used);
    assert r[if i < k then i else i + 1] == l[i];
  }

  /** The new free block is the only one a shrink can put below the hint. */
  lemma ShrinkHint(l: Layout, k: nat, n: int, p: int, q: int)
    requires k + 1 < |l| && l[k].used && HintBelow(l, p) && q <= p
    ensures HintBelow(Coalesce(Split(l, k, n), k + 1), q) <==> q <= l[k].at + n
  {
    var r := Split(l, k, n);
    assert forall i :: 0 <= i < k ==> r[i] == l[i];
    assert forall i :: k + 1 < i < |r| ==> r[i] == l[i - 1];
    var f := Coalesce(r, k + 1);
    assert f[k + 1].at == l[k].at + n && !f[k + 1].used;
    assert forall i :: 0 <= i <= k ==> f[i] == r[i];
    assert forall i :: k + 1 < i < |f| ==> f[i] == if |f| == |r| then r[i] else r[i + 1];
  }

  /** The hint lies above the end cut off from block `k`, and not on the free block the cut merges with. */
  ghost predicate Strands(l: Layout, p: int, k: nat, newsize: int)
    requires k + 1 < |l|
  {
    l[k].at + HDR + newsize < p && !(p == l[k].End() && !l[k + 1].used)
  }

  /** Does a realloc to `n` bytes leave free space below the hint? */
  ghost predicate ReallocStrands(l: Layout, p: int, rmem: Ptr, n: int, memSize: int) {
    && 0 < n <= memSize && Owned(l, rmem)
    && var k := IndexOf(l, rmem);
    n + HDR + MIN_SIZE < l[k].len - HDR && Strands(l, p, k, n)
  }

  /** Positions before `j` start before block `j`; positions after it start after it. */
  lemma Order(l: Layout, hi: int, j: nat)
    requires Tiles(l, HDR, 0, hi) && j < |l|
    ensures forall i :: 0 <= i < j ==> l[i].at < l[j].at
    ensures forall i :: j < i < |l| ==> l[j].at < l[i].at
  {
    TilesOrdered(l, HDR, 0, hi);
  }

  /** Would the search take `b` for a rounded request of `size` bytes? */
  ghost predicate Fits(b: Block, size: int, memSize: int) {
    !b.used && b.at < memSize - size && b.len - HDR >= size
  }

  /** No free block at or above `from` that the search would take. */
  ghost predicate NoFit(l: Layout, from: int, size: int, memSize: int) {
    forall i :: 0 <= i < |l| && from <= l[i].at ==> !Fits(l[i], size, memSize)
  }

  /** Handing out block `k` for a rounded request: split if the rest can hold a block, whole otherwise. */
  ghost function Given(l: Layout, k: nat, size: nat): Layout
    requires k < |l|
  {
    if l[k].len - HDR >= size + HDR + MIN_SIZE then Split(l, k, size + HDR) else Take(l, k)
  }

  /** `p` was returned by an allocation and not freed since. */
  ghost predicate Owned(l: Layout, p: Ptr) {
    p.At? && exists k :: 0 <= k < |l| - 1 && l[k].used && l[k].at + HDR == p.off
  }

  ghost function IndexOf(l: Layout, p: Ptr): (k: nat)
    requires Owned(l, p)
    ensures p.At? && k + 1 < |l| && l[k].used && l[k].at + HDR == p.off
  {
    var k :| 0 <= k < |l| - 1 && l[k].used && l[k].at + HDR == p.off;
    k
  }

  // ---- The heap -----------------------------------------------------------------------------------

  class Heap {
    const memSize: nat          // mem_size_aligned
    var next: map<int, int>     // header fields, by header offset
    var prev: map<int, int>
    var used: map<int, bool>
    var lfree: int
    var usedMem: int
    var maxMem: int
    var data: seq<int>          // the bytes of the heap; header writes overwrite some of them
    ghost var layout: Layout

    ghost function End(): int { memSize + HDR }

    ghost predicate Shape() reads this {
      && memSize >= MIN_SIZE
      && Shaped(layout, next, prev, used, End())
      && |data| == End() + HDR
    }

    ghost predicate Valid() reads this {
      && Shape() && Coalesced(layout) && HintAt(layout, lfree)
      && usedMem == UsedBytes(layout) - HDR && usedMem <= maxMem
    }

    /** The blocks handed out: every used block except the end marker. */
    ghost function Allocated(): set<Block> reads this {
      Live(layout) - {Block(End(), HDR, true)}
    }

    /** rt_system_heap_init on an aligned region of `size + 2 * HDR` bytes. */
    constructor (size: nat)
      requires size >= MIN_SIZE && size % 4 == 0
      ensures Valid() && HintBelow(layout, lfree) && memSize == size
      ensures layout == [Block(0, size + HDR, false), Block(size + HDR, HDR, true)]
      ensures usedMem == 0
    {
      hide UsedBytes;
      memSize := size;
      next := map[0 := size + HDR, size + HDR := size + HDR];
      prev := map[0 := 0, size + HDR := size + HDR];
      used := map[0 := false, size + HDR := true];
      lfree, usedMem, maxMem := 0, 0, 0;
      data := seq(size + HDR + HDR, _ => HEADER_BYTE);
      layout := [Block(0, size + HDR, false), Block(size + HDR, HDR, true)];
      new;
      var a, b := layout[0], layout[1];
      assert layout[1..] == [b] && [b][1..] == [] && Tiles([b], HDR, b.at, End() + HDR);
      SumOne(a, HDR); SumOne(b, HDR); SumTwo(a, b, HDR);
      assert Blocks(layout) == {a, b};
    }

    /** A write to the header at `p`: the bytes it covers change, no others. */
    method WriteHeader(p: int, ghost keep: set<Block>)
      requires Clear(p, keep)
      modifies this`data
      ensures SameData(old(data), data, keep)
    {
      var d := data;
      data := seq(|d|, j requires 0 <= j < |d| => if p <= j < p + HDR then HEADER_BYTE else d[j]);
    }

    /** Creates a free block behind the first `size` data bytes of block `k`: the header code that
        rt_malloc and a shrinking rt_realloc share. */
    method SplitBlock(mem: int, size: nat, ghost k: nat)
      requires Shape() && k + 1 < |layout| && layout[k].at == mem
      requires size > 0 && size % 4 == 0 && size + 2 * HDR < layout[k].len
      modifies `next, `prev, `used, `data, `layout
      ensures Shape() && layout == Split(old(layout), k, size + HDR)
      ensures SameData(old(data), data, Blocks(old(layout)) - {old(layout[k])} + {Block(mem, size + HDR, true)})
    {
      hide Tiles; hide Linked; hide Blocks; hide Clear; hide Split; hide Proper; hide Bytes;
      ghost var l, keep := layout, Blocks(layout) - {layout[k]} + {Block(mem, size + HDR, true)};
      HeaderAt(l, next, prev, used, End(), k);
      NewHeaderClear(l, End(), k, size + HDR, k);
      NewHeaderClear(l, End(), k, size + HDR, k + 1);
      SplitShape(l, next, prev, used, End(), k, size + HDR);
      var mem2 := mem + HDR + size;
      WriteHeader(mem2, keep);
      used, next, prev := used[mem2 := false], next[mem2 := next[mem]], prev[mem2 := mem];
      WriteHeader(mem, keep);
      next, used := next[mem := mem2], used[mem := true];
      if next[mem2] != memSize + HDR {
        WriteHeader(next[mem2], keep);
        prev := prev[next[mem2] := mem2];
      }
      layout := Split(l, k, size + HDR);
    }

    /** plug_holes: merges free block `k` with free neighbours. */
    method PlugHoles(mem: int, ghost k: nat)
      requires Shape() && k + 1 < |layout| && layout[k].at == mem && !layout[k].used
      requires CoalescedBut(layout, k) && (k + 2 < |layout| ==> layout[k + 1].used || layout[k + 2].used)
      requires HintAt(layout, lfree)
      modifies `next, `prev, `lfree, `data, `layout
      ensures Shape() && HintAt(layout, lfree) && layout == Coalesce(old(layout), k) && Coalesced(layout)
      ensures UsedBytes(layout) == UsedBytes(old(layout)) && Live(layout) == Live(old(layout))
      ensures (k > 0 ==> old(layout)[k - 1].used) ==>
                lfree == if !old(layout)[k + 1].used && old(lfree) == old(layout)[k + 1].at then mem else old(lfree)
      ensures lfree <= old(lfree) && (HintBelow(old(layout), old(lfree)) ==> HintBelow(layout, lfree))
      ensures SameData(old(data), data, Live(old(layout)))
    {
      hide Tiles; hide Linked; hide Proper; hide Merge; hide Blocks; hide SameData; hide HintAt; hide HintBelow;
      ghost var l, d := layout, data;
      CoalesceKeeps(l, k, HDR, 0, End() + HDR);
      PlugForward(mem, k);
      ghost var d1 := data;
      PlugBackward(mem, k);
      SameDataTrans(d, d1, data, Live(l));
    }

    method PlugForward(mem: int, ghost k: nat)
      requires Shape() && k + 1 < |layout| && layout[k].at == mem && !layout[k].used && HintAt(layout, lfree)
      modifies `next, `prev, `lfree, `data, `layout
      ensures Shape() && HintAt(layout, lfree)
      ensures layout == if !old(layout)[k + 1].used then Merge(old(layout), k) else old(layout)
      ensures k + 1 < |layout| && layout[k].at == mem && !layout[k].used && Live(layout) == Live(old(layout))
      ensures lfree == if !old(layout)[k + 1].used && old(lfree) == old(layout)[k + 1].at then mem else old(lfree)
      ensures k > 0 ==> layout[k - 1] == old(layout)[k - 1]
      ensures lfree <= old(lfree) && (HintBelow(old(layout), old(lfree)) ==> HintBelow(layout, lfree))
      ensures SameData(old(data), data, Live(old(layout)))
    {
      hide Tiles; hide Linked; hide Blocks; hide Clear; hide Proper; hide Live; hide HintAt; hide HintBelow; hide Merge;
      ghost var l := layout;
      HeaderAt(l, next, prev, used, End(), k);
      var nmem := next[mem];
      if mem != nmem && !used[nmem] && nmem != memSize + HDR {
        HeaderAt(l, next, prev, used, End(), k + 1);
        HeadersClear(l, End(), k);
        HeadersClear(l, End(), k + 2);
        MergeShape(l, next, prev, used, End(), k);
        MergeHint(l, k, lfree, End() + HDR);
        MergeBefore(l, k);
        if lfree == nmem {
          lfree := mem;
        }
        WriteHeader(mem, Live(l));
        next := next[mem := next[nmem]];
        WriteHeader(next[nmem], Live(l));
        prev := prev[next[nmem] := mem];
        layout := Merge(l, k);
      }
    }

    lemma MergeBefore(l: Layout, k: nat)
      requires k + 1 < |l|
      ensures k > 0 ==> |Merge(l, k)| >= k && Merge(l, k)[k - 1] == l[k - 1]
    {
    }

    method PlugBackward(mem: int, ghost k: nat)
      requires Shape() && k + 1 < |layout| && layout[k].at == mem && !layout[k].used && HintAt(layout, lfree)
      modifies `next, `prev, `lfree, `data, `layout
      ensures Shape() && HintAt(layout, lfree)
      ensures layout == if k > 0 && !old(layout)[k - 1].used then Merge(old(layout), k - 1) else old(layout)
      ensures (k > 0 ==> old(layout)[k - 1].used) ==> lfree == old(lfree)
      ensures lfree <= old(lfree) && (HintBelow(old(layout), old(lfree)) ==> HintBelow(layout, lfree))
      ensures SameData(old(data), data, Live(old(layout)))
    {
      hide Tiles; hide Linked; hide Blocks; hide Clear; hide Proper; hide Live; hide HintAt; hide HintBelow; hide Merge;
      ghost var l := layout;
      HeaderAt(l, next, prev, used, End(), k);
      if k > 0 { HeaderAt(l, next, prev, used, End(), k - 1); }
      var pmem := prev[mem];
      if pmem != mem && !used[pmem] {
        HeadersClear(l, End(), k - 1);
        HeadersClear(l, End(), k + 1);
        MergeShape(l, next, prev, used, End(), k - 1);
        MergeHint(l, k - 1, lfree, End() + HDR);
        if lfree == mem {
          lfree := pmem;
        }
        WriteHeader(pmem, Live(l));
        next := next[pmem := next[mem]];
        WriteHeader(next[mem], Live(l));
        prev := prev[next[mem] := pmem];
        layout := Merge(l, k - 1);
      }
    }

    /** rt_free */
    method Free(rmem: Ptr)
      requires Valid() && (rmem == Null || Owned(layout, rmem))
      modifies this
      ensures Valid()
      ensures rmem == Null ==> unchanged(this)
      ensures rmem != Null ==>
                var b := old(layout)[IndexOf(old(layout), rmem)];
                && Live(layout) == Live(old(layout)) - {b}
                && usedMem == old(usedMem) - b.len && maxMem == old(maxMem)
      ensures HintBelow(old(layout), old(lfree)) ==> HintBelow(layout, lfree)
      ensures SameData(old(data), data, Live(layout))
    {
      hide Shaped; hide Live; hide UsedBytes;
      hide Coalesced; hide CoalescedBut; hide Coalesce; hide HintAt; hide HintBelow; hide Drop;
      if rmem == Null {
        return;
      }
      ghost var k := IndexOf(layout, rmem);
      var mem := rmem.off - HDR;
      MarkFree(mem, k);
      ghost var d1 := data;
      PlugHoles(mem, k);
      SameDataTrans(old(data), d1, data, Live(layout));
    }

    /** The part of rt_free before it looks at the neighbours. */
    method MarkFree(mem: int, ghost k: nat)
      requires Valid() && k + 1 < |layout| && layout[k].used && layout[k].at == mem
      modifies `used, `lfree, `usedMem, `data, `layout
      ensures Shape() && HintAt(layout, lfree) && usedMem == UsedBytes(layout) - HDR
      ensures layout == Drop(old(layout), k) && k + 1 < |layout| && layout[k].at == mem && !layout[k].used
      ensures CoalescedBut(layout, k) && (k + 2 < |layout| ==> layout[k + 1].used || layout[k + 2].used)
      ensures Live(layout) == Live(old(layout)) - {old(layout)[k]}
      ensures usedMem == old(usedMem) - old(layout)[k].len && usedMem <= maxMem
      ensures HintBelow(old(layout), old(lfree)) ==> HintBelow(layout, lfree)
      ensures SameData(old(data), data, Live(layout))
    {
      hide Tiles; hide Linked; hide Blocks; hide Clear; hide Proper; hide Live; hide SameData; hide UsedBytes;
      hide Coalesced; hide CoalescedBut; hide HintAt; hide HintBelow; hide Replace;
      ghost var l := layout;
      HeaderAt(l, next, prev, used, End(), k);
      MarkShape(l, next, prev, used, End(), k, false);
      MarkLive(l, k, false, HDR, 0, End() + HDR);
      DropKeeps(l, k, HDR, 0, End() + HDR);
      DropReady(l, k, lfree);
      HeadersClear(Drop(l, k), End(), k);
      WriteHeader(mem, Live(Drop(l, k)));
      used := used[mem := false];
      layout := Drop(l, k);
      if mem < lfree {
        lfree := mem;
      }
      usedMem := usedMem - (next[mem] - mem);
    }

    /** The tail of rt_malloc: moves the hint from block `j` to the next free block. */
    method AdvanceHint(ghost j: nat)
      requires Shape() && j < |layout| && layout[j].at == lfree
      modifies `lfree
      ensures HintAt(layout, lfree)
      ensures HintBelow(layout, old(lfree)) ==> HintBelow(layout, lfree)
    {
      hide Tiles; hide Linked; hide Proper; hide HintBelow;
      ghost var l, k := layout, j;
      if k + 1 < |l| { HeaderAt(l, next, prev, used, End(), k); } else { HeaderAt(l, next, prev, used, End(), 0); }
      while used[lfree] && lfree != memSize + HDR
        invariant j <= k < |l| && l[k].at == lfree
        invariant lfree in used && used[lfree] == l[k].used
        invariant lfree == End() <==> k == |l| - 1
        invariant forall i :: j <= i < k ==> l[i].used
        decreases |l| - k
      {
        HeaderAt(l, next, prev, used, End(), k);
        lfree := next[lfree];
        k := k + 1;
      }
      HintMoved(l, End() + HDR, j, k);
    }

    lemma HintMoved(l: Layout, hi: int, j: nat, k: nat)
      requires Tiles(l, HDR, 0, hi) && j <= k < |l| && forall i :: j <= i < k ==> l[i].used
      ensures HintBelow(l, l[j].at) ==> HintBelow(l, l[k].at)
    {
      Order(l, hi, j);
      Order(l, hi, k);
    }

    /** The part of rt_malloc that hands out free block `k`. */
    method Claim(mem: int, size: nat, ghost k: nat)
      requires Valid() && k + 1 < |layout| && layout[k].at == mem && !layout[k].used
      requires size >= MIN_SIZE && size % 4 == 0 && layout[k].len - HDR >= size
      modifies this
      ensures Valid()
      ensures var l := old(layout);
              var n := if l[k].len - HDR >= size + HDR + MIN_SIZE then size + HDR else l[k].len;
              Live(layout) == Live(l) - {l[k]} + {Block(mem, n, true)} && usedMem == old(usedMem) + n
      ensures layout == Given(old(layout), k, size) && maxMem == Peak(old(maxMem), usedMem)
      ensures HintBelow(old(layout), old(lfree)) ==> HintBelow(layout, lfree)
      ensures SameData(old(data), data, Live(old(layout)))
    {
      hide Tiles; hide Linked; hide Proper; hide HintAt; hide HintBelow; hide Coalesced; hide Live; hide UsedBytes;
      hide Split; hide Replace; hide SameData; hide Blocks; hide Clear;
      ghost var l, hint, d := layout, lfree, data;
      HeaderAt(l, next, prev, used, End(), k);
      if next[mem] - (mem + HDR) >= size + HDR + MIN_SIZE {
        SplitKeeps(l, k, size + HDR, HDR, 0, End() + HDR);
        SplitLive(l, k, size + HDR, HDR, 0, End() + HDR);
        SplitReady(l, k, size + HDR, lfree);
        SplitBlock(mem, size, k);
        LiveSame(l, k, size + HDR, d, data);
        usedMem := usedMem + (size + HDR);
        if maxMem < usedMem { maxMem := usedMem; }
      } else {
        TakeKeeps(l, k, HDR, 0, End() + HDR);
        MarkLive(l, k, true, HDR, 0, End() + HDR);
        TakeReady(l, k, lfree);
        MarkShape(l, next, prev, used, End(), k, true);
        HeadersClear(l, End(), k);
        WriteHeader(mem, Live(l));
        used := used[mem := true];
        layout := Take(l, k);
        usedMem := usedMem + (next[mem] - mem);
        if maxMem < usedMem { maxMem := usedMem; }
      }
      if mem == lfree {
        AdvanceHint(k);
      }
    }

    lemma LiveSame(l: Layout, k: nat, n: int, d0: seq<int>, d1: seq<int>)
      requires k < |l| && SameData(d0, d1, Blocks(l) - {l[k]} + {Block(l[k].at, n, true)})
      ensures SameData(d0, d1, Live(l) - {l[k]} + {Block(l[k].at, n, true)})
      ensures !l[k].used ==> SameData(d0, d1, Live(l))
    {
    }

    /** rt_malloc: first fit from the hint. */
    method Malloc(request: nat) returns (p: Ptr, ghost b: Block, ghost k: nat)
      requires Valid()
      modifies this
      ensures Valid()
      ensures p == Null ==> unchanged(this)
      ensures p == Null <==> request == 0 || AlignUp(request) > memSize
                             || NoFit(old(layout), old(lfree), Rounded(request), memSize)
      ensures HintBelow(old(layout), old(lfree)) && 0 < request && AlignUp(request) <= memSize ==>
                (p == Null <==> forall i :: 0 <= i < |old(layout)| && HasRoom(old(layout)[i], Rounded(request)) ==>
                                  ExactLast(old(layout)[i], Rounded(request), memSize))
      ensures p != Null ==>
                && b.used && b.at + HDR == p.off && p.off % 4 == 0
                && Rounded(request) + HDR <= b.len < Rounded(request) + 2 * HDR + MIN_SIZE
                && b !in Live(old(layout)) && Live(layout) == Live(old(layout)) + {b}
                && usedMem == old(usedMem) + b.len && maxMem == Peak(old(maxMem), usedMem)
                && (forall i :: 0 <= i < |old(layout)| && old(lfree) <= old(layout)[i].at < b.at
                      ==> !Fits(old(layout)[i], Rounded(request), memSize))
      ensures p != Null ==>
                && Owned(layout, p) && k < |old(layout)| && old(layout)[k].at == b.at
                && Fits(old(layout)[k], Rounded(request), memSize) && layout == Given(old(layout), k, Rounded(request))
      ensures HintBelow(old(layout), old(lfree)) ==> HintBelow(layout, lfree)
      ensures SameData(old(data), data, Live(old(layout)))
    {
      hide Tiles; hide Linked; hide Proper; hide HintBelow; hide Coalesced; hide Live; hide UsedBytes; hide AlignUp;
      hide Given; hide SameData; hide HintAt; hide Blocks; hide Owned; hide NoFit;
      p, b, k := Null, Block(0, 0, false), 0;
      SameDataRefl(data, Live(layout));
      if HintBelow(layout, lfree) { FailsThoughRoom(layout, lfree, Rounded(request), memSize); }
      if request == 0 {
        return;
      }
      var size := AlignUp(request);
      if size > memSize {
        return;
      }
      if size < MIN_SIZE {
        size := MIN_SIZE;
      }
      ghost var l := layout;
      var ptr;
      ptr, k := Search(size);
      if ptr == Null {
        return;
      }
      HeaderAt(l, next, prev, used, End(), k);
      b := Grant(ptr.off, size, k);
      p := At(ptr.off + HDR);
    }

    /** Hands out free block `k` and names what the caller gets. */
    method Grant(mem: int, size: nat, ghost k: nat) returns (ghost b: Block)
      requires Valid() && k + 1 < |layout| && layout[k].at == mem && !layout[k].used
      requires size >= MIN_SIZE && size % 4 == 0 && layout[k].len - HDR >= size
      modifies this
      ensures Valid()
      ensures b.used && b.at == mem && size + HDR <= b.len < size + 2 * HDR + MIN_SIZE
      ensures b !in Live(old(layout)) && Live(layout) == Live(old(layout)) + {b} && Owned(layout, At(mem + HDR))
      ensures usedMem == old(usedMem) + b.len && layout == Given(old(layout), k, size) && maxMem == Peak(old(maxMem), usedMem)
      ensures HintBelow(old(layout), old(lfree)) ==> HintBelow(layout, lfree)
      ensures SameData(old(data), data, Live(old(layout)))
    {
      hide Tiles; hide Linked; hide Proper; hide HintBelow; hide Coalesced; hide Live; hide UsedBytes; hide Given; hide SameData;
      hide HintAt; hide Blocks;
      ghost var l := layout;
      HeaderAt(l, next, prev, used, End(), k);
      Claim(mem, size, k);
      b := ClaimedBlock(l, k, size, mem);
    }

    /** The search loop of rt_malloc: the header of the first block from the hint on that fits. */
    method Search(size: nat) returns (ptr: Ptr, ghost k: nat)
      requires Valid() && MIN_SIZE <= size <= memSize
      ensures ptr == Null <==> NoFit(layout, lfree, size, memSize)
      ensures ptr != Null ==> k + 1 < |layout| && ptr.off == layout[k].at && lfree <= ptr.off && Fits(layout[k], size, memSize)
      ensures ptr != Null ==> forall i :: 0 <= i < |layout| && lfree <= layout[i].at < ptr.off ==> !Fits(layout[i], size, memSize)
    {
      hide Tiles; hide Linked; hide Proper; hide Coalesced; hide UsedBytes;
      ghost var l := layout;
      k :| 0 <= k < |l| && l[k].at == lfree;
      Order(l, End() + HDR, k);
      var p := lfree;
      while p < memSize - size
        invariant k < |l| && l[k].at == p && lfree <= p
        invariant forall i :: 0 <= i < k && lfree <= l[i].at ==> !Fits(l[i], size, memSize)
        decreases |l| - k
      {
        HeaderAt(l, next, prev, used, End(), k);
        if !used[p] && next[p] - (p + HDR) >= size {
          Order(l, End() + HDR, k);
          return At(p), k;
        }
        p := next[p];
        k := k + 1;
      }
      Order(l, End() + HDR, k);
      ptr := Null;
    }

    lemma ClaimedBlock(l: Layout, k: nat, size: nat, ptr: int) returns (b: Block)
      requires Tiles(l, HDR, 0, End() + HDR) && k + 1 < |l| && l[k].at == ptr && !l[k].used && l[k].len - HDR >= size
      requires Shape() && ptr < End()
      requires var n := if l[k].len - HDR >= size + HDR + MIN_SIZE then size + HDR else l[k].len;
               Live(layout) == Live(l) - {l[k]} + {Block(ptr, n, true)}
      ensures b.used && b.at == ptr && b.len == if l[k].len - HDR >= size + HDR + MIN_SIZE then size + HDR else l[k].len
      ensures b !in Live(l) && Live(layout) == Live(l) + {b} && Owned(layout, At(ptr + HDR))
    {
      b := Block(ptr, if l[k].len - HDR >= size + HDR + MIN_SIZE then size + HDR else l[k].len, true);
      Increasing(l, End() + HDR, k);
      assert b in Live(layout) && b in layout;
    }

    /** The part of rt_realloc that shrinks block `k` in place. */
    method Shrink(mem: int, newsize: nat, ghost k: nat)
      requires Valid() && k + 1 < |layout| && layout[k].used && layout[k].at == mem
      requires newsize > 0 && newsize % 4 == 0 && newsize + 2 * HDR < layout[k].len
      modifies this
      ensures Valid()
      ensures Live(layout) == Live(old(layout)) - {old(layout)[k]} + {Block(mem, newsize + HDR, true)}
      ensures usedMem == old(usedMem) - (old(layout)[k].len - HDR - newsize) && maxMem == old(maxMem)
      ensures layout == Coalesce(Split(old(layout), k, newsize + HDR), k + 1)
      ensures HintBelow(old(layout), old(lfree)) ==>
                (HintBelow(layout, lfree) <==> !Strands(old(layout), old(lfree), k, newsize))
      ensures SameData(old(data), data, Live(layout))
    {
      hide Tiles; hide Linked; hide Proper; hide HintAt; hide HintBelow; hide Coalesced; hide Live; hide UsedBytes;
      hide Split; hide Replace; hide SameData; hide Blocks; hide Clear; hide CoalescedBut; hide Coalesce;
      ghost var l, d := layout, data;
      HeaderAt(l, next, prev, used, End(), k);
      usedMem := usedMem - (next[mem] - mem - HDR - newsize);
      SplitKeeps(l, k, newsize + HDR, HDR, 0, End() + HDR);
      SplitLive(l, k, newsize + HDR, HDR, 0, End() + HDR);
      ShrinkReady(l, k, newsize + HDR, lfree);
      SplitBlock(mem, newsize, k);
      LiveSame(l, k, newsize + HDR, d, data);
      ghost var r, d1 := layout, data;
      PlugHoles(mem + HDR + newsize, k + 1);
      SameDataTrans(d, d1, data, Live(r));
      SplitNext(l, k, newsize + HDR);
      if HintBelow(l, old(lfree)) {
        ShrinkHint(l, k, newsize + HDR, old(lfree), lfree);
      }
    }

    lemma SplitNext(l: Layout, k: nat, n: int)
      requires Tiles(l, HDR, 0, End() + HDR) && k + 1 < |l| && 0 <= n <= l[k].len
      ensures var r := Split(l, k, n); r[k] == Block(l[k].at, n, true) && r[k + 2] == l[k + 1] && l[k + 1].at == l[k].End()
    {
      Order(l, End() + HDR, k);
      TilesOrdered(l, HDR, 0, End() + HDR);
    }

    /** rt_memcpy into the data area of block `c`. */
    method CopyInto(dst: int, src: int, n: nat, ghost c: Block, ghost keep: set<Block>)
      requires 0 <= dst && dst + n <= |data| && 0 <= src && src + n <= |data|
      requires c.at + HDR == dst && dst + n <= c.End() && Apart(keep + {c}) && c !in keep
      modifies `data
      ensures SameData(old(data), data, keep)
      ensures |data| == |old(data)| && Bytes(data, dst, n) == Bytes(old(data), src, n)
    {
      var d := data;
      data := seq(|d|, j requires 0 <= j < |d| => if dst <= j < dst + n then d[src + (j - dst)] else d[j]);
      forall b | b in keep ensures Bytes(data, b.at + HDR, b.len - HDR) == Bytes(d, b.at + HDR, b.len - HDR) {
        assert b.End() <= c.at || c.End() <= b.at;
      }
    }

    lemma Placed(b: Block)
      requires Shape() && b in Live(layout) && b.at < End()
      ensures Owned(layout, At(b.at + HDR)) && layout[IndexOf(layout, At(b.at + HDR))] == b
      ensures 0 <= b.at && b.len >= HDR && b.End() <= End()
    {
      var i :| 0 <= i < |layout| && layout[i] == b;
      Inner(layout, i, End());
      Increasing(layout, End() + HDR, i);
    }

    lemma LiveApart()
      requires Shape()
      ensures Apart(Live(layout))
    {
      BlocksApart(layout, HDR, 0, End() + HDR);
    }

    /** The part of rt_realloc that moves a live block to a fresh one. */
    method Move(rmem: Ptr, newsize: nat) returns (q: Ptr, ghost c: Block)
      requires Valid() && Owned(layout, rmem) && 0 < newsize <= memSize && newsize % 4 == 0
      modifies this
      ensures Valid()
      ensures q == Null ==> unchanged(this)
      ensures q == Null <==> NoFit(old(layout), old(lfree), Rounded(newsize), memSize)
      ensures q != Null ==>
                var b := old(layout)[IndexOf(old(layout), rmem)];
                && c.used && c.at + HDR == q.off && c.len >= newsize + HDR
                && Live(layout) == Live(old(layout)) - {b} + {c} && Owned(layout, q)
                && usedMem == old(usedMem) - b.len + c.len && maxMem == Peak(old(maxMem), old(usedMem) + c.len)
                && SameData(old(data), data, Live(old(layout)) - {b})
                && Bytes(data, q.off, Min(b.len - HDR, newsize)) == Bytes(old(data), rmem.off, Min(b.len - HDR, newsize))
      ensures HintBelow(old(layout), old(lfree)) ==> HintBelow(layout, lfree)
    {
      hide Shaped; hide UsedBytes; hide Coalesced; hide HintAt; hide HintBelow; hide Live; hide SameData; hide NoFit; hide Apart; hide Bytes; hide Owned; hide Min; hide Given; hide Fits; hide HasRoom; hide ExactLast;
      ghost var l, d, k := layout, data, IndexOf(layout, rmem);
      ghost var b := l[k];
      LiveMember(l, k);
      BlockBounds(k);
      assert rmem == At(b.at + HDR);
      var size := next[rmem.off - HDR] - (rmem.off - HDR) - HDR;
      ghost var at;
      q, c, at := Malloc(newsize);
      if q != Null {
        ghost var d1 := data;
        Placed(b);
        BlockBounds(IndexOf(layout, q));
        Placed(c);
        LiveApart();
        assert Live(l) + {c} == Live(layout);
        CopyInto(q.off, rmem.off, Min(size, newsize), c, Live(l));
        ghost var d2 := data;
        assert layout[IndexOf(layout, rmem)] == b;
        Free(rmem);
        Placed(c);
        assert Live(layout) == Live(l) - {b} + {c};
        MovedData(d, d1, d2, data, Live(l), b, c, rmem.off, newsize);
      }
    }

    lemma LiveMember(l: Layout, k: nat)
      requires k < |l| && l[k].used
      ensures l[k] in Live(l)
    {
    }

    lemma BlockBounds(k: nat)
      requires Shape() && k + 1 < |layout|
      ensures layout[k].at in next && next[layout[k].at] == layout[k].End() && layout[k].at + HDR < End()
      ensures 0 <= layout[k].at && layout[k].len > HDR && layout[k].End() <= End()
    {
      HeaderAt(layout, next, prev, used, End(), k);
    }

    lemma MovedData(d0: seq<int>, d1: seq<int>, d2: seq<int>, d3: seq<int>, live: set<Block>, b: Block, c: Block, src: int, n: nat)
      requires b in live && c !in live && b.at + HDR == src && 0 <= b.at && b.End() <= |d0| && 0 <= c.at && c.End() <= |d0|
      requires SameData(d0, d1, live) && SameData(d1, d2, live) && SameData(d2, d3, live - {b} + {c})
      requires c.len >= n + HDR
      requires var m := Min(b.len - HDR, n); Bytes(d2, c.at + HDR, m) == Bytes(d1, src, m)
      requires b.len >= HDR
      ensures SameData(d0, d3, live - {b})
      ensures var m := Min(b.len - HDR, n); Bytes(d3, c.at + HDR, m) == Bytes(d0, src, m)
    {
      hide Bytes; hide Min;
      var m := Min(b.len - HDR, n);
      BytesPrefix(d0, src, b.len - HDR, m);
      BytesPrefix(d1, src, b.len - HDR, m);
      BytesPrefix(d2, c.at + HDR, c.len - HDR, m);
      BytesPrefix(d3, c.at + HDR, c.len - HDR, m);
    }

    /** rt_realloc.  A pointer outside the heap is handed back untouched. */
    method Realloc(rmem: Ptr, request: nat) returns (q: Ptr, ghost c: Block)
      requires Valid()
      requires rmem == Null || Owned(layout, rmem) || (request > 0 && !(0 <= rmem.off < End()))
      modifies this
      ensures Valid()
      ensures AlignUp(request) > memSize ==> q == Null && unchanged(this)
      ensures request == 0 ==> q == Null
      ensures request == 0 && Owned(old(layout), rmem) ==>
                var b := old(layout)[IndexOf(old(layout), rmem)];
                && Live(layout) == Live(old(layout)) - {b} && usedMem == old(usedMem) - b.len
                && SameData(old(data), data, Live(layout))
      ensures rmem == Null && q == Null ==> unchanged(this)
      ensures rmem == Null && q != Null ==>
                && Owned(layout, q) && q.off == c.at + HDR && c.len >= request + HDR
                && c !in Live(old(layout)) && Live(layout) == Live(old(layout)) + {c}
                && usedMem == old(usedMem) + c.len && SameData(old(data), data, Live(old(layout)))
      ensures 0 < AlignUp(request) <= memSize && Owned(old(layout), rmem) ==>
                var b := old(layout)[IndexOf(old(layout), rmem)];
                var kept := Min(b.len - HDR, AlignUp(request));
                if q == Null then unchanged(this) else
                  && Owned(layout, q) && q.off == c.at + HDR && c.len >= AlignUp(request) + HDR
                  && Live(layout) == Live(old(layout)) - {b} + {c}
                  && usedMem == old(usedMem) - b.len + c.len
                  && Bytes(data, q.off, kept) == Bytes(old(data), rmem.off, kept)
                  && SameData(old(data), data, Live(old(layout)) - {b})
      ensures 0 < AlignUp(request) <= memSize && Owned(old(layout), rmem) ==>
                var b, n := old(layout)[IndexOf(old(layout), rmem)], AlignUp(request);
                if n == b.len - HDR || n + HDR + MIN_SIZE < b.len - HDR then q == rmem && c.len == n + HDR
                else q == Null <==> NoFit(old(layout), old(lfree), Rounded(n), memSize)
      ensures 0 < AlignUp(request) <= memSize && rmem == Null ==>
                (q == Null <==> NoFit(old(layout), old(lfree), Rounded(AlignUp(request)), memSize))
      ensures 0 < AlignUp(request) <= memSize && Owned(old(layout), rmem) ==>
                var k, n := IndexOf(old(layout), rmem), AlignUp(request);
                n + HDR + MIN_SIZE < old(layout)[k].len - HDR ==> layout == Coalesce(Split(old(layout), k, n + HDR), k + 1)
      ensures HintBelow(old(layout), old(lfree)) ==>
                (HintBelow(layout, lfree) <==> !ReallocStrands(old(layout), old(lfree), rmem, AlignUp(request), memSize))
      ensures rmem != Null && !(0 <= rmem.off < End()) ==> unchanged(this) && (AlignUp(request) <= memSize ==> q == rmem)
    {
      hide Shaped; hide UsedBytes; hide Coalesced; hide HintAt; hide HintBelow; hide Live; hide SameData; hide NoFit; hide Bytes;
      hide AlignUp; hide Rounded; hide Split; hide Coalesce; hide Strands; hide Given; hide Fits; hide HasRoom; hide ExactLast;
      SameDataRefl(data, Live(layout));
      ghost var k := 0;
      if Owned(layout, rmem) {
        k := IndexOf(layout, rmem);
        BlockBounds(k);
      }
      q, c := Null, Block(0, 0, false);
      var newsize := AlignUp(request);
      if newsize > memSize {
        return;
      } else if newsize == 0 {
        Free(rmem);
        return;
      }
      if rmem == Null {
        ghost var at;
        q, c, at := Malloc(newsize);
        return;
      }
      if rmem.off < 0 || rmem.off >= memSize + HDR {
        return rmem, c;
      }
      ghost var l, d := layout, data;
      ghost var b := l[k];
      LiveMember(l, k);
      var mem := rmem.off - HDR;
      var size := next[mem] - mem - HDR;
      if size == newsize {
        SameDataRefl(data, Live(l) - {b});
        assert Live(l) == Live(l) - {b} + {b};
        return rmem, b;
      }
      if newsize + HDR + MIN_SIZE < size {
        Shrink(mem, newsize, k);
        q, c := rmem, Block(mem, newsize + HDR, true);
        LiveHas(layout, c);
        Placed(c);
        ShrunkData(d, data, Live(l), b, c, newsize);
        return;
      }
      q, c := Move(rmem, newsize);
    }

    lemma LiveHas(l: Layout, b: Block)
      ensures b in Live(l) ==> b in l && b.used
    {
    }

    lemma SameDataRefl(d: seq<int>, s: set<Block>)
      ensures SameData(d, d, s)
    {
    }

    lemma ShrunkData(d0: seq<int>, d1: seq<int>, live: set<Block>, b: Block, c: Block, n: nat)
      requires SameData(d0, d1, live - {b} + {c}) && c.len == n + HDR && n <= b.len - HDR
      ensures SameData(d0, d1, live - {b})
      ensures Bytes(d1, c.at + HDR, Min(b.len - HDR, n)) == Bytes(d0, c.at + HDR, Min(b.len - HDR, n))
    {
      hide Bytes;
    }

    /** When everything has been freed the heap is one free block again. */
    lemma Recovered()
      requires Valid() && Allocated() == {}
      ensures layout == [Block(0, memSize + HDR, false), Block(End(), HDR, true)] && usedMem == 0
      ensures HintBelow(layout, lfree) ==> lfree == 0
    {
      hide Tiles;
      hide UsedBytes;
      var l := layout;
      TilesOrdered(l, HDR, 0, End() + HDR);
      assert l[0].used || l[1].used;
      forall i | 0 <= i < |l| - 1 ensures !l[i].used {
        assert l[i].End() <= l[|l| - 1].at && l[i] !in Allocated();
      }
      assert l == [l[0], l[1]];
      SumOne(l[0], HDR); SumOne(l[1], HDR); SumTwo(l[0], l[1], HDR);
    }
  }

  /** With the hint lowest, a failed request means that no free block at all fits below the
      search bound. */
  lemma NoFitMeansFull(l: Layout, p: int, size: int, memSize: int)
    requires HintBelow(l, p) && NoFit(l, p, size, memSize)
    ensures forall i :: 0 <= i < |l| ==> !Fits(l[i], size, memSize)
  {
  }

  ghost predicate HasRoom(b: Block, size: int) {
    !b.used && b.len - HDR >= size
  }

  /** The last block of the heap, exactly as long as asked for. */
  ghost predicate ExactLast(b: Block, size: int, memSize: int) {
    b.End() == memSize + HDR && b.len == size + HDR
  }

  /** The search bound is strict: of the free blocks with room it passes over the exactly fitting last one, and no
      other. */
  lemma ExactLastBlockSkipped(b: Block, size: nat, memSize: int)
    requires b.End() <= memSize + HDR && HasRoom(b, size)
    ensures Fits(b, size, memSize) <==> !ExactLast(b, size, memSize)
  {
  }

  /** So with the hint lowest a request fails although some block has room if and only if that block is the exactly
      fitting last one. */
  lemma FailsThoughRoom(l: Layout, p: int, size: nat, memSize: int)
    requires Tiles(l, HDR, 0, memSize + 2 * HDR) && l != [] && l[|l| - 1] == Block(memSize + HDR, HDR, true) && HintBelow(l, p)
    ensures NoFit(l, p, size, memSize) <==> forall i :: 0 <= i < |l| && HasRoom(l[i], size) ==> ExactLast(l[i], size, memSize)
  {
    var n := |l| - 1;
    TilesOrdered(l, HDR, 0, memSize + 2 * HDR);
    forall i | 0 <= i < |l| && HasRoom(l[i], size)
      ensures Fits(l[i], size, memSize) <==> !ExactLast(l[i], size, memSize)
    {
      assert i < n && l[i].End() <= l[n].at;
      ExactLastBlockSkipped(l[i], size, memSize);
    }
  }

  /** A new heap has room for everything it manages, but does not give it out in one piece. */
  method WholeHeapRefused(size: nat) returns (p: Ptr)
    requires size >= MIN_SIZE && size % 4 == 0
    ensures p == Null
  {
    var h := new Heap(size);
    ghost var b, k;
    assert HasRoom(h.layout[0], size) && ExactLast(h.layout[0], size, size);
    p, b, k := h.Malloc(size);
  }

  // ---- A run that strands space --------------------------------------------------------------------

  const FRESH := [Block(0, 200, false), Block(200, HDR, true)]
  const ONE := [Block(0, 112, true), Block(112, 88, false), Block(200, HDR, true)]
  const TWO := [Block(0, 112, true), Block(112, 32, true), Block(144, 56, false), Block(200, HDR, true)]

  lemma FirstGiven(k: nat)
    requires k < |FRESH| && Fits(FRESH[k], 100, 188)
    ensures Given(FRESH, k, 100) == ONE && FRESH[k].at == 0
  {
    assert Split(FRESH, 0, 112) == ONE;
  }

  lemma SecondGiven(k: nat)
    requires k < |ONE| && Fits(ONE[k], 20, 188)
    ensures Given(ONE, k, 20) == TWO
  {
    assert Split(ONE, 1, 32) == TWO;
  }

  lemma FitInside(l: Layout, k: nat, from: int, size: int)
    requires k < |l| && from <= l[k].at && Fits(l[k], size, 188)
    ensures !NoFit(l, from, size, 188)
  {
  }

  lemma TwoHint(p: int)
    requires HintAt(TWO, p) && HintBelow(TWO, p)
    ensures p == 144
  {
    assert !TWO[2].used;
  }

  lemma TwoStrands()
    ensures Owned(TWO, At(HDR)) && ReallocStrands(TWO, 144, At(HDR), 28, 188)
  {
    assert TWO[0].used && TWO[0].at + HDR == HDR;
  }

  /** A shrink can strand free space below the hint: two allocations, and the first cut down. */
  method ShrinkStrandsSpace() returns (h: Heap)
    ensures fresh(h) && h.Valid() && !HintBelow(h.layout, h.lfree)
  {
    hide Shaped; hide UsedBytes; hide Coalesced; hide Live; hide SameData; hide Bytes; hide Coalesce; hide NoFit; hide Given;
    hide HintAt; hide HintBelow; hide ReallocStrands;
    h := new Heap(188);
    ghost var b, k;
    var p, q;
    NewHint(h);
    FitInside(FRESH, 0, h.lfree, 100);
    p, b, k := h.Malloc(100);
    FirstGiven(k);
    ghost var lfree1 := h.lfree;
    OneHint(lfree1);
    FitInside(ONE, 1, lfree1, 20);
    q, b, k := h.Malloc(20);
    SecondGiven(k);
    TwoHint(h.lfree);
    TwoStrands();
    q, b := h.Realloc(p, 28);
  }

  lemma OneHint(p: int)
    requires HintBelow(ONE, p)
    ensures p <= 112
  {
    assert !ONE[1].used;
  }

  lemma NewHint(h: Heap)
    requires HintBelow(h.layout, h.lfree) && h.layout == FRESH
    ensures h.lfree <= 0
  {
    assert !FRESH[0].used;
  }
}
