/** The memory heap of memheap.c: a circular list of all blocks in address order, a second
    circular list of the free ones, first fit along the free list, and in-place resizing. */
module MemHeap {
  import opened Lists
  import opened Tiling
  import Ring

  type Links = Ring.Links

  /** RT_MEMHEAP_SIZE (six words) and RT_MEMHEAP_MINIALLOC. */
  const HDR := 24
  const MINI := 12
  const NULL := 0

  function Rounded(size: nat): (r: nat)
    ensures size <= r && r % 4 == 0 && r >= MINI
  {
    if AlignUp(size) < MINI then MINI else AlignUp(size)
  }

  /** A free successor with which block `k` can grow to `n` bytes in place. */
  ghost predicate Room(l: Layout, k: nat, n: int) {
    k + 2 < |l| && !l[k + 1].used && l[k + 1].len - HDR + (l[k].len - HDR) > n + MINI
  }

  // ---- The block list ---------------------------------------------------------------------------

  /** Where the block list goes after `b`: the tail leads back to the first block. */
  function Succ(b: Block, lo: int, hi: int): int { if b.End() == hi then lo else b.End() }

  ghost predicate Linked(s: set<Block>, next: Links, prev: Links, used: map<int, bool>, lo: int, hi: int) {
    forall b :: b in s ==>
      && b.at in next && next[b.at] == Succ(b, lo, hi)
      && Succ(b, lo, hi) in prev && prev[Succ(b, lo, hi)] == b.at
      && b.at in used && used[b.at] == b.used
  }

  ghost predicate Fine(s: set<Block>, lo: int, hi: int) {
    Apart(s) && forall b :: b in s ==> b.len >= HDR && lo <= b.at && b.End() <= hi
  }

  lemma LinkSplit(s: set<Block>, next: Links, prev: Links, used: map<int, bool>, lo: int, hi: int, b: Block, n: int)
    requires Fine(s, lo, hi) && Linked(s, next, prev, used, lo, hi)
    requires b in s && b.End() != hi && HDR <= n && n + HDR <= b.len
    ensures
      var c := b.at + n;
      Linked(s - {b} + {Block(b.at, n, true), Block(c, b.len - n, false)},
             next[c := b.End()][b.at := c], prev[c := b.at][b.End() := c], used[c := false][b.at := true], lo, hi)
  {
  }

  /** Taking `c` out of the block list leaves its space to its predecessor `b`. */
  lemma LinkMerge(s: set<Block>, next: Links, prev: Links, used: map<int, bool>, lo: int, hi: int, b: Block, c: Block)
    requires Fine(s, lo, hi) && Linked(s, next, prev, used, lo, hi)
    requires b in s && c in s && c.at == b.End() && c.End() != hi
    ensures Linked(s - {b, c} + {Block(b.at, b.len + c.len, b.used)},
                   next[b.at := c.End()], prev[c.End() := b.at], used, lo, hi)
  {
  }

  lemma LinkMark(s: set<Block>, next: Links, prev: Links, used: map<int, bool>, lo: int, hi: int, b: Block, u: bool)
    requires Fine(s, lo, hi) && Linked(s, next, prev, used, lo, hi)
    requires b in s
    ensures Linked(s - {b} + {b.(used := u)}, next, prev, used[b.at := u], lo, hi)
  {
  }

  ghost predicate Whole(l: Layout) {
    forall i :: 0 <= i < |l| ==> l[i].len % 4 == 0
  }

  /** The headers describe the tiling `l` of the pool, which ends in the used, empty tail. */
  ghost predicate Shaped(l: Layout, next: Links, prev: Links, used: map<int, bool>, lo: int, hi: int) {
    && Tiles(l, HDR, lo, hi)
    && |l| >= 2 && l[|l| - 1] == Block(hi - HDR, HDR, true)
    && Linked(Blocks(l), next, prev, used, lo, hi)
    && Whole(l)
  }

  lemma Inner(l: Layout, lo: int, hi: int, k: nat)
    requires Tiles(l, HDR, lo, hi) && |l| >= 2 && l[|l| - 1] == Block(hi - HDR, HDR, true) && k + 1 < |l|
    ensures l[k] in Blocks(l) && l[k + 1] in Blocks(l) && l[|l| - 1] in Blocks(l)
    ensures lo <= l[k].at && HDR <= l[k].len && l[k].End() == l[k + 1].at <= hi - HDR
    ensures l[0].at == lo && (k + 2 < |l| ==> l[k + 1].End() < hi)
  {
    TilesOrdered(l, HDR, lo, hi);
  }

  /** What the header of block `k` holds. */
  lemma HeaderAt(l: Layout, next: Links, prev: Links, used: map<int, bool>, lo: int, hi: int, k: nat)
    requires Shaped(l, next, prev, used, lo, hi) && k + 1 < |l|
    ensures l[k].at in next && next[l[k].at] == l[k].End() == l[k + 1].at
    ensures l[k].at in used && used[l[k].at] == l[k].used && l[k + 1].at in used && used[l[k + 1].at] == l[k + 1].used
    ensures l[k].at in prev && l[k + 1].at in prev && prev[l[k + 1].at] == l[k].at && l[k + 1].at in next
    ensures prev[l[k].at] == if k == 0 then l[|l| - 1].at else l[k - 1].at
    ensures prev[l[k].at] in used && used[prev[l[k].at]] == if k == 0 then true else l[k - 1].used
    ensures l[|l| - 1].used && lo <= l[k].at < l[k + 1].at <= hi - HDR && HDR <= l[k].len && l[k].len % 4 == 0
    ensures k + 2 < |l| ==> next[l[k + 1].at] == l[k + 1].End() == l[k + 2].at && l[k + 1].len >= HDR
  {
    hide Tiles; hide Apart;
    Inner(l, lo, hi, k);
    if k > 0 { Inner(l, lo, hi, k - 1); }
    if k + 2 < |l| { Inner(l, lo, hi, k + 1); }
  }

  lemma TilesFine(l: Layout, lo: int, hi: int)
    requires Tiles(l, HDR, lo, hi)
    ensures Fine(Blocks(l), lo, hi)
  {
    BlocksApart(l, HDR, lo, hi);
  }

  lemma SplitShape(l: Layout, next: Links, prev: Links, used: map<int, bool>, lo: int, hi: int, k: nat, n: int)
    requires Shaped(l, next, prev, used, lo, hi) && k + 1 < |l| && HDR <= n && n + HDR <= l[k].len && n % 4 == 0
    ensures
      var c := l[k].at + n;
      Shaped(Split(l, k, n), next[c := l[k].End()][l[k].at := c], prev[c := l[k].at][l[k].End() := c],
             used[c := false][l[k].at := true], lo, hi)
    ensures |Split(l, k, n)| == |l| + 1 && Split(l, k, n)[k] == Block(l[k].at, n, true)
    ensures Split(l, k, n)[k + 1] == Block(l[k].at + n, l[k].len - n, false) && Split(l, k, n)[k + 2] == l[k + 1]
    ensures FreeAts(Blocks(Split(l, k, n))) == FreeAts(Blocks(l)) - {l[k].at} + {l[k].at + n}
    ensures l[k].at + n !in FreeAts(Blocks(l)) && lo < l[k].at + n
  {
    hide Split; hide Tiles; hide Apart; hide Linked; hide Blocks; hide Whole; hide FreeAts;
    TilesFine(l, lo, hi);
    Inner(l, lo, hi, k);
    LinkSplit(Blocks(l), next, prev, used, lo, hi, l[k], n);
    SplitBlocks(l, lo, hi, k, n);
    FreeAtsSplit(Blocks(l), l[k], n);
    FreshAt(Blocks(l), lo, hi, l[k], n);
  }

  lemma FreshAt(s: set<Block>, lo: int, hi: int, b: Block, n: int)
    requires Fine(s, lo, hi) && b in s && 0 < n < b.len
    ensures b.at + n !in FreeAts(s)
  {
  }

  lemma SplitBlocks(l: Layout, lo: int, hi: int, k: nat, n: int)
    requires Tiles(l, HDR, lo, hi) && k + 1 < |l| && HDR <= n && n + HDR <= l[k].len && Whole(l) && n % 4 == 0
    ensures Tiles(Split(l, k, n), HDR, lo, hi) && |Split(l, k, n)| == |l| + 1
    ensures Split(l, k, n)[|l|] == l[|l| - 1] && Whole(Split(l, k, n))
    ensures Split(l, k, n)[k] == Block(l[k].at, n, true) && Split(l, k, n)[k + 2] == l[k + 1]
    ensures Split(l, k, n)[k + 1] == Block(l[k].at + n, l[k].len - n, false)
    ensures Blocks(Split(l, k, n)) ==
            Blocks(l) - {l[k]} + {Block(l[k].at, n, true), Block(l[k].at + n, l[k].len - n, false)}
  {
    hide Tiles; hide Whole;
    var b := l[k];
    var a, c := Block(b.at, n, true), Block(b.at + n, b.len - n, false);
    SplitKeeps(l, k, n, HDR, lo, hi);
    SplitWhole(l, k, n);
    BlocksReplace(l, k, 1, [a, c], HDR, lo, hi);
    assert l[k..k + 1] == [b] && Blocks([b]) == {b} && Blocks([a, c]) == {a, c};
  }

  lemma SplitWhole(l: Layout, k: nat, n: int)
    requires Whole(l) && k < |l| && n % 4 == 0
    ensures Whole(Split(l, k, n))
  {
    var r := Split(l, k, n);
    assert forall i :: 0 <= i < k ==> r[i] == l[i];
    assert forall i :: k + 1 < i < |r| ==> r[i] == l[i - 1];
  }

  lemma MergeShape(l: Layout, next: Links, prev: Links, used: map<int, bool>, lo: int, hi: int, k: nat)
    requires Shaped(l, next, prev, used, lo, hi) && k + 2 < |l| && !l[k + 1].used
    ensures Shaped(Merge(l, k), next[l[k].at := l[k + 1].End()], prev[l[k + 1].End() := l[k].at], used, lo, hi)
    ensures |Merge(l, k)| == |l| - 1 && Merge(l, k)[k] == Block(l[k].at, l[k].len + l[k + 1].len, l[k].used)
    ensures forall i :: 0 <= i < k ==> Merge(l, k)[i] == l[i]
    ensures k + 1 < |Merge(l, k)| && Merge(l, k)[k + 1] == l[k + 2]
    ensures FreeAts(Blocks(Merge(l, k))) == FreeAts(Blocks(l)) - {l[k + 1].at}
  {
    hide Merge; hide Tiles; hide Apart; hide Linked; hide Blocks; hide Whole; hide FreeAts;
    TilesFine(l, lo, hi);
    Inner(l, lo, hi, k);
    Inner(l, lo, hi, k + 1);
    LinkMerge(Blocks(l), next, prev, used, lo, hi, l[k], l[k + 1]);
    MergeBlocks(l, lo, hi, k);
    FreeAtsMerge(Blocks(l), l[k], l[k + 1]);
  }

  lemma MergeBlocks(l: Layout, lo: int, hi: int, k: nat)
    requires Tiles(l, HDR, lo, hi) && k + 2 < |l| && !l[k + 1].used && Whole(l)
    ensures Tiles(Merge(l, k), HDR, lo, hi) && |Merge(l, k)| == |l| - 1 && Whole(Merge(l, k))
    ensures Merge(l, k)[k] == Block(l[k].at, l[k].len + l[k + 1].len, l[k].used)
    ensures forall i :: 0 <= i < k ==> Merge(l, k)[i] == l[i]
    ensures Merge(l, k)[k + 1] == l[k + 2] && Merge(l, k)[|l| - 2] == l[|l| - 1]
    ensures Blocks(Merge(l, k)) == Blocks(l) - {l[k], l[k + 1]} + {Block(l[k].at, l[k].len + l[k + 1].len, l[k].used)}
  {
    hide Tiles;
    var a := Block(l[k].at, l[k].len + l[k + 1].len, l[k].used);
    MergeKeeps(l, k, HDR, lo, hi);
    BlocksReplace(l, k, 2, [a], HDR, lo, hi);
    assert l[k..k + 2] == [l[k], l[k + 1]] && Blocks([l[k], l[k + 1]]) == {l[k], l[k + 1]} && Blocks([a]) == {a};
  }

  lemma MarkShape(l: Layout, next: Links, prev: Links, used: map<int, bool>, lo: int, hi: int, k: nat, u: bool)
    requires Shaped(l, next, prev, used, lo, hi) && k + 1 < |l|
    ensures Shaped(Replace(l, k, 1, [l[k].(used := u)]), next, prev, used[l[k].at := u], lo, hi)
    ensures FreeAts(Blocks(Replace(l, k, 1, [l[k].(used := u)]))) == FreeAts(Blocks(l)) - {l[k].at} + (if u then {} else {l[k].at})
  {
    hide Tiles; hide Apart; hide Linked; hide Blocks; hide FreeAts;
    TilesFine(l, lo, hi);
    Inner(l, lo, hi, k);
    LinkMark(Blocks(l), next, prev, used, lo, hi, l[k], u);
    MarkBlocks(l, k, u, HDR, lo, hi);
    FreeAtsMark(Blocks(l), l[k], u);
  }

  // ---- The free list ----------------------------------------------------------------------------

  ghost function Nodes(r: seq<int>): set<int> {
    set x | x in r
  }

  lemma NodesRemove(r: seq<int>, i: nat)
    requires Distinct(r) && i < |r|
    ensures Nodes(r[..i] + r[i + 1..]) == Nodes(r) - {r[i]}
  {
    var t := r[..i] + r[i + 1..];
    assert forall j :: 0 <= j < |t| ==> t[j] == r[if j < i then j else j + 1];
    forall x | x in r && x != r[i] ensures x in t {
      var j :| 0 <= j < |r| && r[j] == x;
      assert t[if j < i then j else j - 1] == x;
    }
  }

  lemma NodesInsert(r: seq<int>, x: int)
    ensures Nodes([x] + r) == Nodes(r) + {x}
  {
  }

  /** The free list holds exactly the free blocks, so each of its nodes is a block. */
  lemma FreeBlockAt(l: Layout, x: int) returns (k: nat)
    requires x in FreeAts(Blocks(l))
    ensures k < |l| && l[k].at == x && !l[k].used
  {
    var b :| b in Blocks(l) && !b.used && b.at == x;
    k :| 0 <= k < |l| && l[k] == b;
  }

  lemma FreeBlockListed(l: Layout, k: nat)
    requires k < |l| && !l[k].used
    ensures l[k].at in FreeAts(Blocks(l))
  {
    assert l[k] in Blocks(l);
  }

  /** Splitting or taking free block `k` leaves no two free neighbours. */
  lemma ClaimReady(l: Layout, k: nat, n: int)
    requires k + 1 < |l| && !l[k].used && Coalesced(l)
    ensures Coalesced(Split(l, k, n)) && Coalesced(Take(l, k))
  {
    var r, t := Split(l, k, n), Take(l, k);
    assert forall i :: 0 <= i < k ==> r[i] == l[i] == t[i];
    assert forall i :: k + 1 < i < |r| ==> r[i] == l[i - 1];
    assert forall i :: k < i < |t| ==> t[i] == l[i];
  }

  lemma DropReady(l: Layout, k: nat)
    requires k + 1 < |l| && l[k].used && Coalesced(l)
    ensures var r := Drop(l, k);
            && |r| == |l| && r[k] == l[k].(used := false) && CoalescedBut(r, k) && r[|r| - 1] == l[|l| - 1]
            && (k > 1 ==> r[k - 2].used || r[k - 1].used) && (k + 2 < |r| ==> r[k + 1].used || r[k + 2].used)
            && (k > 0 ==> r[k - 1] == l[k - 1])
  {
    assert Drop(l, k) == l[k := l[k].(used := false)];
  }

  lemma MergeLeftReady(l: Layout, k: nat)
    requires 0 < k && k + 1 < |l| && !l[k - 1].used && !l[k].used && CoalescedBut(l, k)
    requires k > 1 ==> l[k - 2].used || l[k - 1].used
    requires k + 2 < |l| ==> l[k + 1].used || l[k + 2].used
    ensures var r := Merge(l, k - 1);
            CoalescedBut(r, k - 1) && (k > 1 ==> r[k - 2].used) && (k + 1 < |r| ==> r[k].used || r[k + 1].used)
  {
    var r := Merge(l, k - 1);
    assert forall i :: 0 <= i < k - 1 ==> r[i] == l[i];
    assert forall i :: k - 1 < i < |r| ==> r[i] == l[i + 1];
  }

  lemma MergeRightReady(l: Layout, k: nat)
    requires k + 2 < |l| && !l[k].used && !l[k + 1].used && CoalescedBut(l, k) && (k > 0 ==> l[k - 1].used) && l[k + 2].used
    ensures Coalesced(Merge(l, k))
  {
    var r := Merge(l, k);
    assert forall i :: 0 <= i < k ==> r[i] == l[i];
    assert forall i :: k < i < |r| ==> r[i] == l[i + 1];
  }

  /** Growing used block `k` over the front of its free successor. */
  function Grow(l: Layout, k: nat, n: int): (r: Layout)
    requires k + 1 < |l|
  {
    Split(Merge(l, k), k, n)
  }

  lemma MergeUsedReady(l: Layout, k: nat)
    requires k + 2 < |l| && l[k].used && !l[k + 1].used && Coalesced(l)
    ensures var m := Merge(l, k); Coalesced(m) && m[k].used && k + 1 < |m| && m[k + 1].used
  {
    var m := Merge(l, k);
    assert forall i :: 0 <= i < k ==> m[i] == l[i];
    assert forall i :: k < i < |m| ==> m[i] == l[i + 1];
  }

  lemma SplitUsedReady(l: Layout, k: nat, n: int)
    requires k + 1 < |l| && l[k].used && l[k + 1].used && Coalesced(l)
    ensures Coalesced(Split(l, k, n))
  {
    var r := Split(l, k, n);
    assert forall i :: 0 <= i < k ==> r[i] == l[i];
    assert forall i :: k + 1 < i < |r| ==> r[i] == l[i - 1];
  }

  lemma GrowReady(l: Layout, k: nat, n: int)
    requires k + 2 < |l| && l[k].used && !l[k + 1].used && Coalesced(l)
    ensures Coalesced(Grow(l, k, n))
  {
    hide Coalesced; hide Split; hide Merge;
    MergeUsedReady(l, k);
    SplitUsedReady(Merge(l, k), k, n);
  }

  lemma GrowKeeps(l: Layout, k: nat, n: int, lo: int, hi: int)
    requires Tiles(l, HDR, lo, hi) && k + 2 < |l| && l[k].used && !l[k + 1].used
    requires l[k].len < n && n + HDR <= l[k].len + l[k + 1].len
    ensures FreeBytes(Grow(l, k, n), HDR) == FreeBytes(l, HDR) - (n - l[k].len)
    ensures Live(Grow(l, k, n)) == Live(l) - {l[k]} + {Block(l[k].at, n, true)}
  {
    var _ := TilesCut(l, k, HDR, lo, hi);
    hide Tiles; hide FreeBytes; hide UsedBytes; hide Live; hide Split; hide Replace;
    MergeKeeps(l, k, HDR, lo, hi);
    MergeUsedLive(l, k, HDR, lo, hi);
    MergeFirst(l, k);
    SplitKeeps(Merge(l, k), k, n, HDR, lo, hi);
    SplitLive(Merge(l, k), k, n, HDR, lo, hi);
  }

  lemma MergeFirst(l: Layout, k: nat)
    requires k + 1 < |l|
    ensures |Merge(l, k)| == |l| - 1 && Merge(l, k)[k] == Block(l[k].at, l[k].len + l[k + 1].len, l[k].used)
  {
  }

  /** Shrinking used block `k`: only the new free block can have a free neighbour, on its right. */
  lemma ShrinkReady(l: Layout, k: nat, n: int)
    requires k + 1 < |l| && l[k].used && Coalesced(l)
    ensures var r := Split(l, k, n);
            && CoalescedBut(r, k + 1) && r[k].used && r[k + 2] == l[k + 1]
            && (k + 3 < |r| ==> r[k + 2].used || r[k + 3].used)
  {
    var r := Split(l, k, n);
    assert forall i :: 0 <= i < k ==> r[i] == l[i];
    assert forall i :: k + 1 < i < |r| ==> r[i] == l[i - 1];
  }

  /** `p` was returned by an allocation and not freed since. */
  ghost predicate Owned(l: Layout, p: int) {
    exists k :: 0 <= k < |l| - 1 && l[k].used && l[k].at + HDR == p
  }

  ghost function IndexOf(l: Layout, p: int): (k: nat)
    requires Owned(l, p)
    ensures k + 1 < |l| && l[k].used && l[k].at + HDR == p
  {
    var k :| 0 <= k < |l| - 1 && l[k].used && l[k].at + HDR == p;
    k
  }

  // ---- Contents ---------------------------------------------------------------------------------

  /** The bytes of the memory, by address. */
  type Bytes = int -> int

  const HEADER_BYTE := 0

  /** A write to the header at `x`: the bytes it covers change. */
  function Wipe(d: Bytes, x: int): Bytes {
    a => if x <= a < x + HDR then HEADER_BYTE else d(a)
  }

  function Copied(d: Bytes, dst: int, src: int, n: nat): Bytes {
    a => if dst <= a < dst + n then d(src + (a - dst)) else d(a)
  }

  /** The data areas of these blocks hold the same bytes. */
  ghost predicate SameData(d0: Bytes, d1: Bytes, s: set<Block>) {
    forall b :: b in s ==> SameIn(d0, d1, b)
  }

  ghost predicate SameIn(d0: Bytes, d1: Bytes, b: Block) {
    forall a :: b.at + HDR <= a < b.End() ==> d1(a) == d0(a)
  }

  /** A header at `x` overlaps none of the data areas. */
  ghost predicate Clear(x: int, s: set<Block>) {
    forall b :: b in s ==> x <= b.at || b.End() <= x
  }

  /** All headers of the tiling, and a free-list header outside the pool, keep off these blocks' data. */
  ghost predicate Safe(l: Layout, header: int, lo: int, hi: int, keep: set<Block>) {
    && (forall b :: b in Blocks(l) ==> Clear(b.at, keep))
    && (forall b :: b in keep ==> lo <= b.at && b.End() <= hi)
    && !(lo <= header < hi)
  }

  ghost predicate SameBytes(d0: Bytes, src: int, d1: Bytes, dst: int, n: int) {
    forall a :: dst <= a < dst + n ==> d1(a) == d0(src + (a - dst))
  }

  function Min(a: int, b: int): int { if a < b then a else b }

  lemma WipeSame(d: Bytes, x: int, keep: set<Block>)
    requires Clear(x, keep)
    ensures SameData(d, Wipe(d, x), keep)
  {
  }

  lemma SameDataTrans(d0: Bytes, d1: Bytes, d2: Bytes, s: set<Block>)
    requires SameData(d0, d1, s) && SameData(d1, d2, s)
    ensures SameData(d0, d2, s)
  {
  }

  lemma SameDataRefl(d: Bytes, s: set<Block>)
    ensures SameData(d, d, s)
  {
  }

  lemma SafeLive(l: Layout, header: int, lo: int, hi: int)
    requires Tiles(l, HDR, lo, hi) && !(lo <= header < hi)
    ensures Safe(l, header, lo, hi, Live(l))
  {
    BlocksApart(l, HDR, lo, hi);
  }

  lemma SafeAt(l: Layout, header: int, lo: int, hi: int, keep: set<Block>, k: nat)
    requires Safe(l, header, lo, hi, keep) && k < |l|
    ensures Clear(l[k].at, keep) && Clear(header, keep)
  {
    assert l[k] in Blocks(l);
  }

  lemma SafeSplit(l: Layout, header: int, lo: int, hi: int, keep: set<Block>, k: nat, n: int)
    requires Safe(l, header, lo, hi, keep) && k < |l| && Clear(l[k].at + n, keep)
    ensures Safe(Split(l, k, n), header, lo, hi, keep)
  {
    hide Clear;
    SafeAt(l, header, lo, hi, keep, k);
    var r := Split(l, k, n);
    forall b | b in Blocks(r) ensures Clear(b.at, keep) {
      assert b in Blocks(l) || b.at == l[k].at || b.at == l[k].at + n;
    }
  }

  lemma SafeMerge(l: Layout, header: int, lo: int, hi: int, keep: set<Block>, k: nat)
    requires Safe(l, header, lo, hi, keep) && k + 1 < |l|
    ensures Safe(Merge(l, k), header, lo, hi, keep)
  {
    hide Clear;
    SafeAt(l, header, lo, hi, keep, k);
    var r := Merge(l, k);
    forall b | b in Blocks(r) ensures Clear(b.at, keep) {
      assert b in Blocks(l) || b.at == l[k].at;
    }
  }

  lemma SafeMark(l: Layout, header: int, lo: int, hi: int, keep: set<Block>, k: nat, u: bool)
    requires Safe(l, header, lo, hi, keep) && k < |l|
    ensures Safe(Replace(l, k, 1, [l[k].(used := u)]), header, lo, hi, keep)
  {
    hide Clear;
    SafeAt(l, header, lo, hi, keep, k);
    var r := Replace(l, k, 1, [l[k].(used := u)]);
    forall b | b in Blocks(r) ensures Clear(b.at, keep) {
      assert b in Blocks(l) || b.at == l[k].at;
    }
  }

  /** A split point inside block `k` is clear of all other live blocks, and of block `k` if that is free or cut there. */
  lemma SplitClear(l: Layout, lo: int, hi: int, k: nat, n: int)
    requires Tiles(l, HDR, lo, hi) && k < |l| && HDR <= n <= l[k].len
    ensures Clear(l[k].at + n, Live(l) - {l[k]} + {Block(l[k].at, n, true)})
    ensures !l[k].used ==> Clear(l[k].at + n, Live(l))
  {
    BlocksApart(l, HDR, lo, hi);
    assert l[k] in Blocks(l);
  }

  /** Where a block grown over its free successor ends, no live data lie. */
  lemma GrowClear(l: Layout, lo: int, hi: int, k: nat, n: int)
    requires Tiles(l, HDR, lo, hi) && k + 1 < |l| && !l[k + 1].used
    requires l[k].len <= n && n + HDR <= l[k].len + l[k + 1].len
    ensures Clear(l[k].at + n, Live(l))
  {
    TilesOrdered(l, HDR, lo, hi);
    var m := n - l[k].len;
    if m == 0 {
      SplitClear(l, lo, hi, k, l[k].len);
      assert l[k].used ==> Live(l) - {l[k]} + {Block(l[k].at, l[k].len, true)} == Live(l);
    } else {
      BlocksApart(l, HDR, lo, hi);
      assert l[k] in Blocks(l) && l[k + 1] in Blocks(l);
    }
  }

  /** The same blocks with block `k` cut to `n` bytes. */
  lemma SafeCut(l: Layout, header: int, lo: int, hi: int, k: nat, n: int)
    requires Tiles(l, HDR, lo, hi) && k < |l| && HDR <= n <= l[k].len && !(lo <= header < hi)
    ensures Safe(l, header, lo, hi, Live(l) - {l[k]} + {Block(l[k].at, n, true)})
  {
    BlocksApart(l, HDR, lo, hi);
    assert l[k] in Blocks(l);
  }

  /** The free list's nodes are free blocks, so their headers are clear too. */
  ghost predicate RingClear(r: seq<int>, header: int, keep: set<Block>) {
    Clear(header, keep) && forall x :: x in r ==> Clear(x, keep)
  }

  lemma SafeRing(l: Layout, r: seq<int>, header: int, lo: int, hi: int, keep: set<Block>)
    requires Safe(l, header, lo, hi, keep) && Nodes(r) <= FreeAts(Blocks(l))
    ensures RingClear(r, header, keep)
  {
    forall x | x in r ensures Clear(x, keep) {
      assert x in Nodes(r);
      var k := FreeBlockAt(l, x);
      SafeAt(l, header, lo, hi, keep, k);
    }
  }

  /** The free list after block `k` was freed: a free successor leaves it, and the block goes to its front unless it was
      merged into a free predecessor, which stays where it is. */
  ghost function Relisted(l: Layout, ring: seq<int>, k: nat): seq<int>
    requires k + 1 < |l|
  {
    (if k > 0 && !l[k - 1].used then [] else [l[k].at]) + if l[k + 1].used then ring else Without(ring, l[k + 1].at)
  }

  function Peak(a: int, b: int): int { if a < b then b else a }

  ghost predicate NoFit(l: Layout, size: int) {
    forall i :: 0 <= i < |l| && !l[i].used ==> l[i].len - HDR < size
  }

  /** The first `j` blocks of the free list do not fit. */
  ghost predicate TooSmall(l: Layout, ring: seq<int>, j: nat, size: int)
    requires j <= |ring|
  {
    forall i, m :: 0 <= i < |l| && 0 <= m < j && ring[m] == l[i].at && !l[i].used ==> l[i].len - HDR < size
  }

  /** `x` is the first block of the free list that fits. */
  ghost predicate FirstFit(l: Layout, ring: seq<int>, x: int, size: int) {
    exists j :: 0 <= j < |ring| && ring[j] == x && TooSmall(l, ring, j, size)
  }

  lemma FirstFitAt(l: Layout, ring: seq<int>, j: nat, size: int)
    requires j < |ring| && TooSmall(l, ring, j, size)
    ensures FirstFit(l, ring, ring[j], size)
  {
  }

  class Heap {
    const start: int
    const poolSize: nat
    const header: int                  // the free-list header, a node outside the pool
    var next: Links                    // header fields, by header address
    var prev: Links
    var nextFree: Links
    var prevFree: Links
    var used: map<int, bool>           // the low bit of magic
    var available: int
    var maxUsed: int
    var data: Bytes                    // every byte; header writes overwrite some of them
    ghost var layout: Layout           // all blocks, in address order
    ghost var ring: seq<int>           // the free list, in list order

    ghost function Hi(): int { start + poolSize }

    ghost predicate Shape() reads this {
      && NULL <= start && !(start <= header < Hi())
      && Shaped(layout, next, prev, used, start, Hi())
      && Ring.IsRing(nextFree, prevFree, header, ring)
    }

    ghost predicate Valid() reads this {
      && Shape() && Coalesced(layout)
      && Nodes(ring) == FreeAts(Blocks(layout))
      && available == FreeBytes(layout, HDR) && poolSize - available <= maxUsed
    }

    /** rt_memheap_init */
    constructor (addr: int, size: nat, head: int)
      requires NULL <= addr && !(addr <= head < addr + size / 4 * 4) && size / 4 * 4 >= 2 * HDR
      ensures Valid() && start == addr && poolSize == size / 4 * 4
      ensures layout == [Block(addr, poolSize - HDR, false), Block(addr + poolSize - HDR, HDR, true)]
    {
      start, header := addr, head;
      var pool := size / 4 * 4;
      poolSize := pool;
      available := pool - 2 * HDR;
      maxUsed := pool - (pool - 2 * HDR);
      var tail := addr + (pool - 2 * HDR) + HDR;
      next := map[addr := tail, tail := addr];
      prev := map[addr := tail, tail := addr];
      nextFree := map[head := addr, addr := head, tail := NULL];
      prevFree := map[addr := head, head := addr, tail := NULL];
      used := map[addr := false, tail := true];
      data := _ => HEADER_BYTE;
      layout, ring := [Block(addr, pool - HDR, false), Block(tail, HDR, true)], [addr];
      new;
      NewPool(start, pool, layout);
      assert ring[1..] == [];
    }

    /** One free block and the tail. */
    static lemma NewPool(addr: int, pool: int, l: Layout)
      requires pool >= 2 * HDR && pool % 4 == 0
      requires l == [Block(addr, pool - HDR, false), Block(addr + pool - HDR, HDR, true)]
      ensures Tiles(l, HDR, addr, addr + pool) && Blocks(l) == {l[0], l[1]} && Coalesced(l) && Whole(l)
      ensures Nodes([addr]) == FreeAts(Blocks(l)) && FreeBytes(l, HDR) == pool - 2 * HDR
    {
      var a, b := l[0], l[1];
      assert l[1..] == [b] && [b][1..] == [] && Tiles([b], HDR, b.at, addr + pool);
      assert Blocks(l) == {a, b};
      assert a in Blocks(l);
      hide FreeBytes;
      SumOne(a, HDR); SumOne(b, HDR); SumTwo(a, b, HDR);
      assert l == [a, b];
      assert Nodes([addr]) == {addr} == FreeAts(Blocks(l));
    }

    /** Headers keep off the data of these blocks. */
    ghost predicate Off(keep: set<Block>) reads `layout { Safe(layout, header, start, Hi(), keep) }

    method WriteHeader(x: int, ghost keep: set<Block>, ghost d: Bytes)
      requires Clear(x, keep) && SameData(d, data, keep)
      modifies `data
      ensures SameData(d, data, keep)
    {
      WipeSame(data, x, keep);
      SameDataTrans(d, data, Wipe(data, x), keep);
      data := Wipe(data, x);
    }

    method WriteTwo(x: int, y: int, ghost keep: set<Block>, ghost d: Bytes)
      requires Clear(x, keep) && Clear(y, keep) && SameData(d, data, keep)
      modifies `data
      ensures SameData(d, data, keep)
    {
      hide Clear; hide SameData;
      WriteHeader(x, keep, d);
      WriteHeader(y, keep, d);
    }

    /** The four assignments that put a block at the front of the free list. */
    method FreeInsert(x: int, ghost keep: set<Block>, ghost d: Bytes)
      requires Ring.IsRing(nextFree, prevFree, header, ring) && x != header && x !in ring
      requires RingClear(ring, header, keep) && Clear(x, keep)
      requires SameData(d, data, keep)
      modifies `nextFree, `prevFree, `ring, `data
      ensures SameData(d, data, keep)
      ensures Ring.IsRing(nextFree, prevFree, header, ring) && ring == [x] + old(ring)
      ensures Nodes(ring) == Nodes(old(ring)) + {x}
    {
      hide Clear; hide SameData;
      Ring.Nodes(nextFree, prevFree, header, ring);
      Ring.InsertFront(nextFree, prevFree, header, ring, x);
      NodesInsert(ring, x);
      nextFree := nextFree[x := nextFree[header]];
      prevFree := prevFree[x := header];
      WriteHeader(x, keep, d);
      prevFree := prevFree[nextFree[header] := x];
      WriteHeader(nextFree[header], keep, d);
      nextFree := nextFree[header := x];
      WriteHeader(header, keep, d);
      ring := [x] + ring;
    }

    /** The two assignments that take a block out of the free list. */
    method FreeRemove(x: int, ghost keep: set<Block>, ghost d: Bytes)
      requires Ring.IsRing(nextFree, prevFree, header, ring) && x in ring && RingClear(ring, header, keep)
      requires SameData(d, data, keep)
      modifies `nextFree, `prevFree, `ring, `data
      ensures SameData(d, data, keep) && RingClear(ring, header, keep)
      ensures Ring.IsRing(nextFree, prevFree, header, ring)
      ensures ring == Without(old(ring), x) && Nodes(ring) == Nodes(old(ring)) - {x} && x !in ring && x != header
    {
      ghost var i :| 0 <= i < |ring| && ring[i] == x;
      Ring.Remove(nextFree, prevFree, header, ring, i);
      NodesRemove(ring, i);
      WithoutSplit(ring, i);
      Ring.Neighbours(nextFree, prevFree, header, ring, i);
      hide Clear; hide SameData; hide Ring.IsRing;
      WriteHeader(nextFree[x], keep, d);
      prevFree := prevFree[nextFree[x] := prevFree[x]];
      WriteHeader(prevFree[x], keep, d);
      nextFree := nextFree[prevFree[x] := nextFree[x]];
      ring := ring[..i] + ring[i + 1..];
      assert x !in Nodes(ring);
    }

    /** The header code that starts a free block behind the first `n` bytes of block `k`. */
    method SplitBlock(h: int, n: int, ghost k: nat, ghost keep: set<Block>, ghost d: Bytes)
      requires Shape() && k + 1 < |layout| && layout[k].at == h
      requires HDR <= n && n + HDR <= layout[k].len && n % 4 == 0
      requires Off(keep) && Clear(h + n, keep)
      requires SameData(d, data, keep)
      modifies `next, `prev, `used, `layout, `data
      ensures SameData(d, data, keep) && Off(keep)
      ensures Shape() && layout == Split(old(layout), k, n)
      ensures FreeAts(Blocks(layout)) == FreeAts(Blocks(old(layout))) - {h} + {h + n}
      ensures h + n !in FreeAts(Blocks(old(layout))) && start < h + n < Hi()
      ensures |layout| == |old(layout)| + 1 && layout[k] == Block(h, n, true) && layout[k + 2] == old(layout)[k + 1]
      ensures layout[k + 1] == Block(h + n, old(layout)[k].len - n, false)
    {
      hide Tiles; hide Linked; hide Blocks; hide Split; hide Whole; hide Ring.IsRing; hide FreeAts;
      hide SameData; hide Clear; hide Safe;
      ghost var l := layout;
      HeaderAt(l, next, prev, used, start, Hi(), k);
      SplitShape(l, next, prev, used, start, Hi(), k, n);
      SafeAt(l, header, start, Hi(), keep, k);
      SafeAt(l, header, start, Hi(), keep, k + 1);
      SafeSplit(l, header, start, Hi(), keep, k, n);
      var c := h + n;
      WriteTwo(c, next[h], keep, d);
      used := used[c := false];
      prev := prev[c := h];
      next := next[c := next[h]];
      prev := prev[next[h] := c];
      next := next[h := c];
      used := used[h := true];
      WriteHeader(h, keep, d);
      layout := Split(l, k, n);
    }

    /** The search loop of rt_memheap_alloc: the first block in free-list order that fits. */
    method Search(size: nat) returns (h: int, ghost k: nat, ghost j: nat)
      requires Valid() && 0 < size
      ensures h == header <==> NoFit(layout, size)
      ensures h != header ==> k + 1 < |layout| && layout[k].at == h && !layout[k].used && layout[k].len - HDR >= size
      ensures h != header ==> j < |ring| && ring[j] == h && TooSmall(layout, ring, j, size)
    {
      hide Tiles; hide Linked; hide Coalesced; hide FreeBytes; hide Whole; hide FreeAts; hide Blocks; hide Ring.Path;
      ghost var l := layout;
      Ring.Nodes(nextFree, prevFree, header, ring);
      var freeSize := 0;
      h := nextFree[header];
      k, j := 0, 0;
      while h != header && freeSize < size
        invariant 0 <= j <= |ring| && h == (if j < |ring| then ring[j] else header)
        invariant TooSmall(l, ring, j, size)
        invariant freeSize >= size ==> h != header && k + 1 < |l| && l[k].at == h && !l[k].used && freeSize == l[k].len - HDR
        decreases |ring| - j, if freeSize < size then 1 else 0
      {
        assert h in Nodes(ring);
        k := FreeBlockAt(l, h);
        HeaderAt(l, next, prev, used, start, Hi(), k);
        freeSize := next[h] - h - HDR;
        if freeSize < size {
          SameAt(l, k, start, Hi());
          Ring.Next(nextFree, prevFree, header, ring, j);
          h := nextFree[h];
          j := j + 1;
        }
      }
      if h == header {
        forall i | 0 <= i < |l| && !l[i].used ensures l[i].len - HDR < size {
          FreeBlockListed(l, i);
          assert l[i].at in Nodes(ring);
        }
      }
    }

    lemma SameAt(l: Layout, k: nat, lo: int, hi: int)
      requires Tiles(l, HDR, lo, hi) && k < |l|
      ensures forall i :: 0 <= i < |l| && l[i].at == l[k].at ==> i == k
    {
      TilesOrdered(l, HDR, lo, hi);
    }

    /** The part of rt_memheap_alloc that hands out free block `k`. */
    method Claim(h: int, size: nat, ghost k: nat)
      requires Valid() && k + 1 < |layout| && layout[k].at == h && !layout[k].used
      requires MINI <= size && size % 4 == 0 && layout[k].len - HDR >= size
      modifies this
      ensures Valid()
      ensures var l := old(layout);
              var n := if l[k].len - HDR >= size + HDR + MINI then size + HDR else l[k].len;
              && Live(layout) == Live(l) - {l[k]} + {Block(h, n, true)}
              && ring == (if n < l[k].len then [h + n] else []) + Without(old(ring), h)
      ensures maxUsed == Peak(old(maxUsed), poolSize - available)
      ensures SameData(old(data), data, Live(old(layout)))
    {
      hide Tiles; hide Linked; hide Coalesced; hide FreeBytes; hide Whole; hide FreeAts; hide Blocks; hide Ring.IsRing;
      hide Split; hide Live; hide Nodes; hide Replace; hide SameData;
      HeaderAt(layout, next, prev, used, start, Hi(), k);
      var freeSize := next[h] - h - HDR;
      if freeSize >= size + HDR + MINI {
        ClaimFront(h, size, k);
      } else {
        ClaimWhole(h, freeSize, k);
      }
      if poolSize - available > maxUsed {
        maxUsed := poolSize - available;
      }
    }

    method ClaimFront(h: int, size: nat, ghost k: nat)
      requires Valid() && k + 1 < |layout| && layout[k].at == h && !layout[k].used
      requires size % 4 == 0 && layout[k].len - HDR >= size + HDR + MINI
      modifies `next, `prev, `used, `nextFree, `prevFree, `available, `layout, `ring, `data
      ensures Shape() && Coalesced(layout) && Nodes(ring) == FreeAts(Blocks(layout)) && available == FreeBytes(layout, HDR)
      ensures Live(layout) == Live(old(layout)) - {old(layout)[k]} + {Block(h, size + HDR, true)}
      ensures ring == [h + size + HDR] + Without(old(ring), h)
      ensures SameData(old(data), data, Live(old(layout)))
    {
      hide Tiles; hide Linked; hide Coalesced; hide FreeBytes; hide Whole; hide FreeAts; hide Blocks; hide Ring.IsRing;
      hide Split; hide Live; hide Nodes; hide Replace;
      hide SameData; hide Clear; hide Safe; hide RingClear;
      ghost var l, d, keep := layout, data, Live(layout);
      SameDataRefl(d, keep);
      HeaderAt(l, next, prev, used, start, Hi(), k);
      FreeBlockListed(l, k);
      InNodes(ring, h);
      ClaimReady(l, k, size + HDR);
      SplitKeeps(l, k, size + HDR, HDR, start, Hi());
      SplitLive(l, k, size + HDR, HDR, start, Hi());
      SafeLive(l, header, start, Hi());
      SafeAt(l, header, start, Hi(), keep, k);
      SplitClear(l, start, Hi(), k, size + HDR);
      SafeRing(l, ring, header, start, Hi(), keep);
      SplitBlock(h, size + HDR, k, keep, d);
      NotInNodes(ring, h + (size + HDR));
      Exchange(h, h + (size + HDR), keep, d);
      available := available - size - HDR;
    }

    /** Block `h` leaves the free list and block `c` enters it. */
    method Exchange(h: int, c: int, ghost keep: set<Block>, ghost d: Bytes)
      requires Ring.IsRing(nextFree, prevFree, header, ring) && h in ring && c !in ring && c != header
      requires RingClear(ring, header, keep) && Clear(h, keep) && Clear(c, keep) && SameData(d, data, keep)
      modifies `nextFree, `prevFree, `ring, `data
      ensures Ring.IsRing(nextFree, prevFree, header, ring) && SameData(d, data, keep)
      ensures Nodes(ring) == Nodes(old(ring)) - {h} + {c} && ring == [c] + Without(old(ring), h)
    {
      hide Ring.IsRing; hide Nodes; hide SameData; hide Clear; hide RingClear;
      WithoutKept(ring, h, c);
      FreeRemove(h, keep, d);
      Ring.Outside(nextFree, prevFree, header, ring, h, NULL, NULL);
      nextFree, prevFree := nextFree[h := NULL], prevFree[h := NULL];
      WriteHeader(h, keep, d);
      FreeInsert(c, keep, d);
    }

    lemma WithoutKept(r: seq<int>, h: int, c: int)
      requires c !in r
      ensures c !in Without(r, h)
    {
      if c in Without(r, h) {
        WithoutFrom(r, h, c);
      }
    }

    /** A free block that is on no list yet is put on it. */
    method List(x: int, ghost k: nat, ghost keep: set<Block>, ghost d: Bytes)
      requires Shape() && k + 1 < |layout| && layout[k].at == x && !layout[k].used
      requires Nodes(ring) == FreeAts(Blocks(layout)) - {x} && Off(keep) && SameData(d, data, keep)
      modifies `nextFree, `prevFree, `ring, `data
      ensures Shape() && Nodes(ring) == FreeAts(Blocks(layout)) && SameData(d, data, keep) && ring == [x] + old(ring)
    {
      hide Tiles; hide Linked; hide Whole; hide FreeAts; hide Blocks; hide Ring.IsRing; hide Nodes;
      hide SameData; hide Clear; hide Safe; hide RingClear;
      SafeAt(layout, header, start, Hi(), keep, k);
      SafeRing(layout, ring, header, start, Hi(), keep);
      NotInNodes(ring, x);
      FreeBlockListed(layout, k);
      HeaderAt(layout, next, prev, used, start, Hi(), k);
      FreeInsert(x, keep, d);
    }

    method ClaimWhole(h: int, freeSize: int, ghost k: nat)
      requires Valid() && k + 1 < |layout| && layout[k].at == h && !layout[k].used && freeSize == layout[k].len - HDR
      modifies `used, `nextFree, `prevFree, `available, `layout, `ring, `data
      ensures Shape() && Coalesced(layout) && Nodes(ring) == FreeAts(Blocks(layout)) && available == FreeBytes(layout, HDR)
      ensures Live(layout) == Live(old(layout)) - {old(layout)[k]} + {Block(h, freeSize + HDR, true)}
      ensures ring == Without(old(ring), h)
      ensures SameData(old(data), data, Live(old(layout)))
    {
      hide Tiles; hide Linked; hide Coalesced; hide FreeBytes; hide Whole; hide FreeAts; hide Blocks; hide Ring.IsRing;
      hide Live; hide Nodes; hide Replace;
      hide SameData; hide Clear; hide Safe; hide RingClear;
      ghost var l, d, keep := layout, data, Live(layout);
      SameDataRefl(d, keep);
      SafeLive(l, header, start, Hi());
      SafeAt(l, header, start, Hi(), keep, k);
      SafeRing(l, ring, header, start, Hi(), keep);
      FreeBlockListed(l, k);
      InNodes(ring, h);
      ClaimReady(l, k, HDR);
      TakeKeeps(l, k, HDR, start, Hi());
      MarkLive(l, k, true, HDR, start, Hi());
      MarkShape(l, next, prev, used, start, Hi(), k, true);
      available := available - freeSize;
      FreeRemove(h, keep, d);
      Ring.Outside(nextFree, prevFree, header, ring, h, NULL, NULL);
      nextFree, prevFree := nextFree[h := NULL], prevFree[h := NULL];
      used := used[h := true];
      WriteHeader(h, keep, d);
      layout := Take(l, k);
    }

    lemma InNodes(r: seq<int>, x: int)
      ensures x in Nodes(r) <==> x in r
    {
    }

    lemma NotInNodes(r: seq<int>, x: int)
      requires x !in Nodes(r)
      ensures x !in r
    {
    }

    /** rt_memheap_alloc */
    method Alloc(request: nat) returns (p: int, ghost b: Block)
      requires Valid()
      modifies this
      ensures Valid()
      ensures p == NULL ==> unchanged(this)
      ensures p == NULL <==> Rounded(request) >= old(available) || NoFit(old(layout), Rounded(request))
      ensures p != NULL ==>
                && b.used && b.at + HDR == p && b !in Live(old(layout)) && Live(layout) == Live(old(layout)) + {b}
                && Rounded(request) + HDR <= b.len < Rounded(request) + 2 * HDR + MINI
                && Owned(layout, p) && FirstFit(old(layout), old(ring), b.at, Rounded(request))
                && (ring == Without(old(ring), b.at) || ring == [b.End()] + Without(old(ring), b.at))
                && maxUsed == Peak(old(maxUsed), poolSize - available)
      ensures SameData(old(data), data, Live(old(layout)))
    {
      hide Tiles; hide Linked; hide Coalesced; hide FreeBytes; hide Whole; hide FreeAts; hide Blocks; hide Ring.IsRing;
      hide Live; hide Nodes; hide AlignUp; hide TooSmall; hide FirstFit; hide SameData;
      SameDataRefl(data, Live(layout));
      p, b := NULL, Block(0, 0, false);
      var size := AlignUp(request);
      if size < MINI {
        size := MINI;
      }
      if size < available {
        ghost var l, k, j := layout, 0, 0;
        var h;
        h, k, j := Search(size);
        if h != header {
          FirstFitAt(l, ring, j, size);
          HeaderAt(l, next, prev, used, start, Hi(), k);
          Claim(h, size, k);
          b := ClaimedBlock(l, k, size, h);
          p := h + HDR;
        }
      }
    }

    lemma ClaimedBlock(l: Layout, k: nat, size: nat, h: int) returns (b: Block)
      requires Tiles(l, HDR, start, Hi()) && k + 1 < |l| && l[k].at == h && !l[k].used && l[k].len - HDR >= size
      requires Shape() && h < Hi() - HDR
      requires var n := if l[k].len - HDR >= size + HDR + MINI then size + HDR else l[k].len;
               Live(layout) == Live(l) - {l[k]} + {Block(h, n, true)}
      ensures b.used && b.at == h && b.len == if l[k].len - HDR >= size + HDR + MINI then size + HDR else l[k].len
      ensures b !in Live(l) && Live(layout) == Live(l) + {b} && Owned(layout, h + HDR)
    {
      b := Block(h, if l[k].len - HDR >= size + HDR + MINI then size + HDR else l[k].len, true);
      SameAt(l, k, start, Hi());
      assert b in Live(layout) && b in layout;
    }

    /** Merges free block `k`, not yet on the free list, into a free predecessor. */
    method MergeLeft(h: int, ghost k: nat, ghost keep: set<Block>, ghost d: Bytes) returns (h': int, ghost k': nat, merged: bool)
      requires Shape() && k + 1 < |layout| && layout[k].at == h && !layout[k].used
      requires CoalescedBut(layout, k) && (k > 1 ==> layout[k - 2].used || layout[k - 1].used)
      requires k + 2 < |layout| ==> layout[k + 1].used || layout[k + 2].used
      requires Nodes(ring) == FreeAts(Blocks(layout)) - {h} && available == FreeBytes(layout, HDR) && Off(keep)
      requires SameData(d, data, keep)
      modifies `next, `prev, `available, `layout, `data
      ensures SameData(d, data, keep) && Off(keep)
      ensures Shape() && k' + 1 < |layout| && layout[k'].at == h' && !layout[k'].used
      ensures CoalescedBut(layout, k') && (k' > 0 ==> layout[k' - 1].used)
      ensures k' + 2 < |layout| ==> layout[k' + 1].used || layout[k' + 2].used
      ensures Live(layout) == Live(old(layout)) && available == FreeBytes(layout, HDR) >= old(available)
      ensures Nodes(ring) == FreeAts(Blocks(layout)) - (if merged then {} else {h'})
      ensures h' in Nodes(ring) <==> merged
      ensures merged <==> (k > 0 && !old(layout)[k - 1].used)
      ensures layout[k' + 1] == old(layout)[k + 1] && (!merged ==> h' == h)
    {
      hide Without; hide Whole; hide Linked; hide Tiles; hide Shaped; hide FreeBytes; hide FreeAts; hide Blocks; hide Ring.IsRing;
      hide Live; hide Nodes; hide Merge; hide CoalescedBut; hide SameData; hide Clear; hide Safe;
      ghost var l := layout;
      HeaderAt(l, next, prev, used, start, Hi(), k);
      h', k', merged := h, k, false;
      if !used[prev[h]] {
        HeaderAt(l, next, prev, used, start, Hi(), k - 1);
        h' := MergeIntoLeft(h, k, keep, d);
        k', merged := k - 1, true;
      }
    }

    method MergeIntoLeft(h: int, ghost k: nat, ghost keep: set<Block>, ghost d: Bytes) returns (h': int)
      requires Shape() && 0 < k && k + 1 < |layout| && layout[k].at == h && !layout[k].used && !layout[k - 1].used
      requires CoalescedBut(layout, k) && (k > 1 ==> layout[k - 2].used || layout[k - 1].used)
      requires k + 2 < |layout| ==> layout[k + 1].used || layout[k + 2].used
      requires Nodes(ring) == FreeAts(Blocks(layout)) - {h} && available == FreeBytes(layout, HDR) && Off(keep)
      requires SameData(d, data, keep)
      modifies `next, `prev, `available, `layout, `data
      ensures SameData(d, data, keep) && Off(keep)
      ensures Shape() && k < |layout| && layout[k - 1].at == h' && !layout[k - 1].used && layout[k] == old(layout)[k + 1]
      ensures CoalescedBut(layout, k - 1) && (k > 1 ==> layout[k - 2].used)
      ensures k + 1 < |layout| ==> layout[k].used || layout[k + 1].used
      ensures Live(layout) == Live(old(layout)) && available == FreeBytes(layout, HDR) == old(available) + HDR
      ensures Nodes(ring) == FreeAts(Blocks(layout)) && h' in Nodes(ring)
    {
      hide Shaped; hide FreeBytes; hide FreeAts; hide Blocks; hide Ring.IsRing; hide Tiles;
      hide Live; hide Nodes; hide Merge; hide CoalescedBut; hide SameData; hide Clear; hide Safe;
      ghost var l := layout;
      HeaderAt(l, next, prev, used, start, Hi(), k);
      HeaderAt(l, next, prev, used, start, Hi(), k - 1);
      LeftFacts(l, next, prev, used, start, Hi(), header, keep, k);
      available := available + HDR;
      WriteTwo(prev[h], next[h], keep, d);
      next := next[prev[h] := next[h]];
      prev := prev[next[h] := prev[h]];
      layout := Merge(l, k - 1);
      h' := prev[h];
    }

    lemma LeftFacts(l: Layout, next: Links, prev: Links, used: map<int, bool>, lo: int, hi: int, header: int, keep: set<Block>, k: nat)
      requires Shaped(l, next, prev, used, lo, hi) && Safe(l, header, lo, hi, keep) && 0 < k && k + 1 < |l|
      requires !l[k - 1].used && !l[k].used && CoalescedBut(l, k) && (k > 1 ==> l[k - 2].used || l[k - 1].used)
      requires k + 2 < |l| ==> l[k + 1].used || l[k + 2].used
      ensures var m := Merge(l, k - 1);
        && Shaped(m, next[l[k - 1].at := l[k].End()], prev[l[k].End() := l[k - 1].at], used, lo, hi)
        && |m| == |l| - 1 && m[k - 1] == Block(l[k - 1].at, l[k - 1].len + l[k].len, false) && m[k] == l[k + 1]
        && CoalescedBut(m, k - 1) && (k > 1 ==> m[k - 2].used) && (k + 1 < |m| ==> m[k].used || m[k + 1].used)
        && Live(m) == Live(l) && FreeBytes(m, HDR) == FreeBytes(l, HDR) + HDR
        && FreeAts(Blocks(m)) == FreeAts(Blocks(l)) - {l[k].at} && l[k - 1].at in FreeAts(Blocks(m))
        && Safe(m, header, lo, hi, keep) && Clear(l[k - 1].at, keep) && Clear(l[k + 1].at, keep)
    {
      hide Tiles; hide Linked; hide FreeBytes; hide Whole; hide FreeAts; hide Blocks;
      hide Live; hide Merge; hide CoalescedBut; hide Clear; hide Safe;
      SafeAt(l, header, lo, hi, keep, k - 1);
      SafeAt(l, header, lo, hi, keep, k + 1);
      SafeMerge(l, header, lo, hi, keep, k - 1);
      MergeLeftReady(l, k);
      MergeShape(l, next, prev, used, lo, hi, k - 1);
      MergeKeeps(l, k - 1, HDR, lo, hi);
      MergeLive(l, k - 1);
      FreeBlockListed(Merge(l, k - 1), k - 1);
    }

    /** Merges free block `k` with a free successor, which leaves the free list. */
    method MergeRight(h: int, ghost k: nat, ghost keep: set<Block>, ghost d: Bytes)
      requires Shape() && k + 1 < |layout| && layout[k].at == h && !layout[k].used
      requires CoalescedBut(layout, k) && (k > 0 ==> layout[k - 1].used)
      requires k + 2 < |layout| ==> layout[k + 1].used || layout[k + 2].used
      requires available == FreeBytes(layout, HDR)
      requires Nodes(ring) == FreeAts(Blocks(layout)) || Nodes(ring) == FreeAts(Blocks(layout)) - {h}
      requires Off(keep)
      requires SameData(d, data, keep)
      modifies `next, `prev, `nextFree, `prevFree, `ring, `available, `layout, `data
      ensures SameData(d, data, keep) && Off(keep)
      ensures Shape() && Coalesced(layout) && k + 1 < |layout| && layout[k].at == h && !layout[k].used
      ensures Live(layout) == Live(old(layout)) && available == FreeBytes(layout, HDR) >= old(available)
      ensures Nodes(ring) == FreeAts(Blocks(layout)) - (if h in Nodes(old(ring)) then {} else {h})
      ensures ring == if old(layout)[k + 1].used then old(ring) else Without(old(ring), old(layout)[k + 1].at)
    {
      hide Tiles; hide Linked; hide FreeBytes; hide Whole; hide FreeAts; hide Blocks; hide Ring.IsRing;
      hide Live; hide Nodes; hide Merge; hide CoalescedBut; hide Coalesced;
      hide SameData; hide Clear; hide Safe; hide RingClear;
      ghost var l := layout;
      HeaderAt(l, next, prev, used, start, Hi(), k);
      FreeBlockListed(l, k);
      if !used[next[h]] {
        HeaderAt(l, next, prev, used, start, Hi(), k + 1);
        MergeRightReady(l, k);
        MergeShape(l, next, prev, used, start, Hi(), k);
        MergeKeeps(l, k, HDR, start, Hi());
        MergeLive(l, k);
        FreeBlockListed(l, k + 1);
        available := available + HDR;
        SafeAt(l, header, start, Hi(), keep, k);
        SafeAt(l, header, start, Hi(), keep, k + 2);
        SafeMerge(l, header, start, Hi(), keep, k);
        SafeRing(l, ring, header, start, Hi(), keep);
        var n := next[h];
        InNodes(ring, n);
        WriteTwo(next[n], h, keep, d);
        prev := prev[next[n] := h];
        next := next[h := next[n]];
        FreeRemove(n, keep, d);
        layout := Merge(l, k);
      } else {
        CoalescedOut(l, k);
      }
    }

    /** rt_memheap_free */
    method Free(p: int)
      requires Valid() && (p == NULL || Owned(layout, p))
      modifies this
      ensures Valid()
      ensures p == NULL ==> unchanged(this)
      ensures p != NULL ==> Live(layout) == Live(old(layout)) - {old(layout)[IndexOf(old(layout), p)]}
      ensures p != NULL ==> maxUsed == old(maxUsed) && ring == Relisted(old(layout), old(ring), IndexOf(old(layout), p))
      ensures SameData(old(data), data, Live(old(layout)))
    {
      hide Tiles; hide Linked; hide FreeBytes; hide Whole; hide FreeAts; hide Blocks; hide Ring.IsRing;
      hide Live; hide Nodes; hide CoalescedBut; hide Coalesced; hide Replace;
      hide SameData; hide Clear; hide Safe; hide RingClear;
      ghost var l, d, keep := layout, data, Live(layout);
      SameDataRefl(d, keep);
      if p == NULL {
        return;
      }
      ghost var k := IndexOf(layout, p);
      SafeLive(l, header, start, Hi());
      SafeAt(l, header, start, Hi(), keep, k);
      SafeMark(l, header, start, Hi(), keep, k, false);
      var h := p - HDR;
      HeaderAt(l, next, prev, used, start, Hi(), k);
      MarkShape(l, next, prev, used, start, Hi(), k, false);
      MarkLive(l, k, false, HDR, start, Hi());
      DropKeeps(l, k, HDR, start, Hi());
      DropReady(l, k);
      UsedUnlisted(l, k, start, Hi());
      WriteHeader(h, keep, d);
      used := used[h := false];
      available := available + (next[h] - h - HDR);
      layout := Drop(l, k);
      Rejoin(h, k, keep, d);
    }

    /** The rest of rt_memheap_free: the freed block is merged with free neighbours and listed. */
    method Rejoin(h0: int, ghost k0: nat, ghost keep: set<Block>, ghost d: Bytes)
      requires Shape() && k0 + 1 < |layout| && layout[k0].at == h0 && !layout[k0].used
      requires CoalescedBut(layout, k0) && (k0 > 1 ==> layout[k0 - 2].used || layout[k0 - 1].used)
      requires k0 + 2 < |layout| ==> layout[k0 + 1].used || layout[k0 + 2].used
      requires Nodes(ring) == FreeAts(Blocks(layout)) - {h0} && available == FreeBytes(layout, HDR) && Off(keep)
      requires SameData(d, data, keep)
      modifies `next, `prev, `nextFree, `prevFree, `ring, `available, `layout, `data
      ensures Shape() && Coalesced(layout) && Nodes(ring) == FreeAts(Blocks(layout)) && Live(layout) == Live(old(layout))
      ensures available == FreeBytes(layout, HDR) >= old(available) && SameData(d, data, keep)
      ensures ring == Relisted(old(layout), old(ring), k0)
    {
      hide Shaped; hide FreeBytes; hide FreeAts; hide Blocks; hide Ring.IsRing;
      hide Live; hide Nodes; hide CoalescedBut; hide Coalesced; hide SameData; hide Safe;
      ghost var k := k0;
      var h, merged := h0, false;
      h, k, merged := MergeLeft(h, k, keep, d);
      MergeRight(h, k, keep, d);
      if !merged {
        List(h, k, keep, d);
      }
    }

    lemma UsedUnlisted(l: Layout, k: nat, lo: int, hi: int)
      requires Tiles(l, HDR, lo, hi) && k < |l| && l[k].used
      ensures l[k].at !in FreeAts(Blocks(l))
    {
      SameAt(l, k, lo, hi);
    }

    /** The part of rt_memheap_realloc that grows block `k` over a free successor. */
    method GrowInPlace(h: int, newsize: nat, ghost k: nat)
      requires Valid() && k + 2 < |layout| && layout[k].used && layout[k].at == h && !layout[k + 1].used
      requires newsize % 4 == 0 && newsize > layout[k].len - HDR
      requires layout[k + 1].len - HDR + (layout[k].len - HDR) > newsize + MINI
      modifies this
      ensures Valid()
      ensures Live(layout) == Live(old(layout)) - {old(layout)[k]} + {Block(h, newsize + HDR, true)}
      ensures ring == [h + newsize + HDR] + Without(old(ring), old(layout)[k + 1].at) && maxUsed == Peak(old(maxUsed), poolSize - available)
      ensures SameData(old(data), data, Live(old(layout)))
    {
      hide Shaped; hide Coalesced; hide FreeBytes; hide FreeAts; hide Blocks; hide Ring.IsRing; hide Whole;
      hide Split; hide Live; hide Nodes; hide Merge; hide SameData; hide Clear; hide Safe; hide RingClear;
      ghost var l, d, keep := layout, data, Live(layout);
      SameDataRefl(d, keep);
      HeaderAt(l, next, prev, used, start, Hi(), k);
      HeaderAt(l, next, prev, used, start, Hi(), k + 1);
      GrowFacts(l, next, prev, used, start, Hi(), header, k, newsize + HDR);
      var oldsize := next[h] - h - HDR;
      available := available - (newsize - oldsize);
      if poolSize - available > maxUsed {
        maxUsed := poolSize - available;
      }
      var n := next[h];
      TakeNext(h, n, k, keep, d);
      CutAndList(h, newsize + HDR, k, keep, d);
    }

    /** Used block `k` is cut to `n` bytes and the rest, with nothing free behind it, listed. */
    method CutAndList(h: int, n: int, ghost k: nat, ghost keep: set<Block>, ghost d: Bytes)
      requires Shape() && k + 1 < |layout| && layout[k].at == h && HDR <= n && n + HDR <= layout[k].len && n % 4 == 0
      requires Nodes(ring) == FreeAts(Blocks(layout)) && FreeAts(Blocks(layout)) - {h} == FreeAts(Blocks(layout))
      requires Off(keep) && Clear(h + n, keep) && RingClear(ring, header, keep) && SameData(d, data, keep)
      modifies `next, `prev, `used, `nextFree, `prevFree, `ring, `layout, `data
      ensures Shape() && layout == Split(old(layout), k, n) && Nodes(ring) == FreeAts(Blocks(layout)) && ring == [h + n] + old(ring)
      ensures SameData(d, data, keep)
    {
      hide Shaped; hide FreeAts; hide Blocks; hide Ring.IsRing;
      hide Split; hide Nodes; hide SameData; hide Clear; hide Safe; hide RingClear;
      SplitBlock(h, n, k, keep, d);
      NotInNodes(ring, h + n);
      FreeInsert(h + n, keep, d);
    }

    lemma GrowFacts(l: Layout, next: Links, prev: Links, used: map<int, bool>, lo: int, hi: int, header: int, k: nat, n: int)
      requires Shaped(l, next, prev, used, lo, hi) && !(lo <= header < hi) && Coalesced(l)
      requires k + 2 < |l| && l[k].used && !l[k + 1].used && l[k].len < n && n + HDR <= l[k].len + l[k + 1].len
      ensures var m, r, keep := Merge(l, k), Split(Merge(l, k), k, n), Live(l);
        && Live(r) == keep - {l[k]} + {Block(l[k].at, n, true)} && Safe(l, header, lo, hi, keep) && Clear(l[k].at + n, keep)
        && Coalesced(r) && FreeBytes(r, HDR) == FreeBytes(l, HDR) - (n - l[k].len)
        && |m| == |l| - 1 && m[k] == Block(l[k].at, l[k].len + l[k + 1].len, true)
        && FreeAts(Blocks(m)) == FreeAts(Blocks(l)) - {l[k + 1].at} && FreeAts(Blocks(m)) - {l[k].at} == FreeAts(Blocks(m))
    {
      hide Linked; hide Coalesced; hide FreeBytes; hide Whole; hide FreeAts; hide Blocks; hide Tiles;
      hide Split; hide Live; hide Replace; hide Clear; hide Safe; hide Merge;
      SafeLive(l, header, lo, hi);
      GrowClear(l, lo, hi, k, n);
      MergeShape(l, next, prev, used, lo, hi, k);
      MergeFirst(l, k);
      GrowReady(l, k, n);
      GrowKeeps(l, k, n, lo, hi);
      UsedUnlisted(Merge(l, k), k, lo, hi);
    }

    /** The free successor of used block `k` leaves both lists. */
    method TakeNext(h: int, n: int, ghost k: nat, ghost keep: set<Block>, ghost d: Bytes)
      requires Shape() && k + 2 < |layout| && layout[k].used && layout[k].at == h && !layout[k + 1].used && layout[k + 1].at == n
      requires Nodes(ring) == FreeAts(Blocks(layout)) && Off(keep) && SameData(d, data, keep)
      modifies `next, `prev, `nextFree, `prevFree, `ring, `layout, `data
      ensures Shape() && layout == Merge(old(layout), k) && Off(keep) && RingClear(ring, header, keep)
      ensures Nodes(ring) == FreeAts(Blocks(old(layout))) - {n} && SameData(d, data, keep) && ring == Without(old(ring), n)
    {
      hide Tiles; hide Linked; hide Whole; hide FreeAts; hide Blocks; hide Ring.IsRing; hide Nodes; hide Merge;
      hide SameData; hide Clear; hide Safe; hide RingClear;
      ghost var l := layout;
      SafeAt(l, header, start, Hi(), keep, k);
      SafeAt(l, header, start, Hi(), keep, k + 2);
      SafeMerge(l, header, start, Hi(), keep, k);
      SafeRing(l, ring, header, start, Hi(), keep);
      HeaderAt(l, next, prev, used, start, Hi(), k);
      HeaderAt(l, next, prev, used, start, Hi(), k + 1);
      MergeShape(l, next, prev, used, start, Hi(), k);
      FreeBlockListed(l, k + 1);
      InNodes(ring, n);
      FreeRemove(n, keep, d);
      WriteTwo(next[n], prev[n], keep, d);
      prev := prev[next[n] := prev[n]];
      next := next[prev[n] := next[n]];
      layout := Merge(l, k);
    }

    /** The part of rt_memheap_realloc that cuts the end off block `k`. */
    method ShrinkInPlace(h: int, newsize: nat, ghost k: nat)
      requires Valid() && k + 1 < |layout| && layout[k].used && layout[k].at == h
      requires newsize % 4 == 0 && newsize + HDR + MINI < layout[k].len - HDR
      modifies this
      ensures Valid()
      ensures Live(layout) == Live(old(layout)) - {old(layout)[k]} + {Block(h, newsize + HDR, true)}
      ensures ring == [h + newsize + HDR] + (if old(layout)[k + 1].used then old(ring) else Without(old(ring), old(layout)[k + 1].at))
      ensures maxUsed == old(maxUsed)
      ensures SameData(old(data), data, Live(layout))
    {
      hide Without; hide Clear; hide Whole; hide Linked; hide Tiles; hide Shaped; hide Coalesced; hide FreeBytes; hide FreeAts; hide Blocks; hide Ring.IsRing;
      hide Split; hide Live; hide Nodes; hide CoalescedBut; hide SameData; hide Safe;
      ghost var l, d := layout, data;
      ghost var keep := Live(l) - {l[k]} + {Block(h, newsize + HDR, true)};
      SameDataRefl(d, keep);
      ShrinkFacts(l, next, prev, used, start, Hi(), header, k, newsize + HDR);
      SplitBlock(h, newsize + HDR, k, keep, d);
      var c := h + newsize + HDR;
      RejoinRight(c, k + 1, keep, d);
    }

    /** The rest of rt_memheap_realloc on a block it cut: the cut end is merged with a free successor and listed. */
    method RejoinRight(c: int, ghost k: nat, ghost keep: set<Block>, ghost d: Bytes)
      requires Shape() && 0 < k && k + 1 < |layout| && layout[k].at == c && !layout[k].used
      requires CoalescedBut(layout, k) && layout[k - 1].used
      requires k + 2 < |layout| ==> layout[k + 1].used || layout[k + 2].used
      requires available == FreeBytes(layout, HDR) - (layout[k].len - HDR)
      requires Nodes(ring) == FreeAts(Blocks(layout)) - {c} && Off(keep)
      requires SameData(d, data, keep)
      modifies `next, `prev, `nextFree, `prevFree, `ring, `available, `layout, `data
      ensures Shape() && Coalesced(layout) && Nodes(ring) == FreeAts(Blocks(layout)) && Live(layout) == Live(old(layout))
      ensures available == FreeBytes(layout, HDR) >= old(available) && SameData(d, data, keep)
      ensures ring == [c] + if old(layout)[k + 1].used then old(ring) else Without(old(ring), old(layout)[k + 1].at)
    {
      hide Shaped; hide Coalesced; hide FreeBytes; hide FreeAts; hide Blocks; hide Ring.IsRing;
      hide Live; hide Nodes; hide CoalescedBut; hide SameData; hide Safe; hide Without; hide Clear;
      AbsorbRight(c, k, keep, d);
      HeaderAt(layout, next, prev, used, start, Hi(), k);
      List(c, k, keep, d);
      available := available + (next[c] - c - HDR);
    }

    lemma ShrinkFacts(l: Layout, next: Links, prev: Links, used: map<int, bool>, lo: int, hi: int, header: int, k: nat, n: int)
      requires Shaped(l, next, prev, used, lo, hi) && !(lo <= header < hi) && Coalesced(l)
      requires k + 1 < |l| && l[k].used && HDR <= n && n + HDR <= l[k].len
      ensures var r, keep := Split(l, k, n), Live(l) - {l[k]} + {Block(l[k].at, n, true)};
        && Live(r) == keep && Safe(l, header, lo, hi, keep) && Clear(l[k].at + n, keep)
        && |r| == |l| + 1 && CoalescedBut(r, k + 1) && r[k].used && r[k + 2] == l[k + 1] && (k + 3 < |r| ==> r[k + 2].used || r[k + 3].used)
        && FreeBytes(r, HDR) == FreeBytes(l, HDR) + (l[k].len - n - HDR)
      ensures l[k].at !in FreeAts(Blocks(l))
    {
      hide Tiles; hide Linked; hide Coalesced; hide FreeBytes; hide Whole; hide FreeAts; hide Blocks;
      hide Split; hide Live; hide Replace; hide CoalescedBut; hide Clear; hide Safe;
      SafeCut(l, header, lo, hi, k, n);
      SplitClear(l, lo, hi, k, n);
      UsedUnlisted(l, k, lo, hi);
      ShrinkReady(l, k, n);
      SplitKeeps(l, k, n, HDR, lo, hi);
      SplitLive(l, k, n, HDR, lo, hi);
    }

    /** Merges a free successor into block `k`, which is not on the free list and not yet counted. */
    method AbsorbRight(c: int, ghost k: nat, ghost keep: set<Block>, ghost d: Bytes)
      requires Shape() && 0 < k && k + 1 < |layout| && layout[k].at == c && !layout[k].used
      requires CoalescedBut(layout, k) && layout[k - 1].used
      requires k + 2 < |layout| ==> layout[k + 1].used || layout[k + 2].used
      requires available == FreeBytes(layout, HDR) - (layout[k].len - HDR)
      requires Nodes(ring) == FreeAts(Blocks(layout)) - {c} && Off(keep)
      requires SameData(d, data, keep)
      modifies `next, `prev, `nextFree, `prevFree, `ring, `available, `layout, `data
      ensures SameData(d, data, keep) && Off(keep)
      ensures Shape() && Coalesced(layout) && k + 1 < |layout| && layout[k].at == c && !layout[k].used
      ensures Live(layout) == Live(old(layout)) && Nodes(ring) == FreeAts(Blocks(layout)) - {c}
      ensures available == FreeBytes(layout, HDR) - (layout[k].len - HDR)
      ensures available + (layout[k].len - HDR) >= old(available)
      ensures ring == if old(layout)[k + 1].used then old(ring) else Without(old(ring), old(layout)[k + 1].at)
    {
      hide Tiles; hide Linked; hide FreeBytes; hide Whole; hide FreeAts; hide Blocks; hide Ring.IsRing;
      hide Live; hide Nodes; hide Merge; hide CoalescedBut; hide Coalesced;
      hide SameData; hide Clear; hide Safe; hide RingClear;
      ghost var l := layout;
      HeaderAt(l, next, prev, used, start, Hi(), k);
      FreeBlockListed(l, k);
      if !used[next[c]] {
        HeaderAt(l, next, prev, used, start, Hi(), k + 1);
        MergeRightReady(l, k);
        MergeShape(l, next, prev, used, start, Hi(), k);
        MergeKeeps(l, k, HDR, start, Hi());
        MergeLive(l, k);
        FreeBlockListed(l, k + 1);
        SafeAt(l, header, start, Hi(), keep, k);
        SafeAt(l, header, start, Hi(), keep, k + 2);
        SafeMerge(l, header, start, Hi(), keep, k);
        SafeRing(l, ring, header, start, Hi(), keep);
        var f := next[c];
        InNodes(ring, f);
        available := available - (next[f] - f - HDR);
        WriteTwo(next[f], c, keep, d);
        prev := prev[next[f] := c];
        next := next[c := next[f]];
        FreeRemove(f, keep, d);
        layout := Merge(l, k);
      } else {
        CoalescedOut(l, k);
      }
    }

    lemma Placed(b: Block)
      requires Shape() && b in Live(layout) && b.at < Hi() - HDR
      ensures Owned(layout, b.at + HDR) && layout[IndexOf(layout, b.at + HDR)] == b
    {
      var i :| 0 <= i < |layout| && layout[i] == b;
      SameAt(layout, i, start, Hi());
    }

    lemma OwnedBelow(p: int)
      requires Shape() && Owned(layout, p)
      ensures p - HDR < Hi() - HDR
    {
      HeaderAt(layout, next, prev, used, start, Hi(), IndexOf(layout, p));
    }

    lemma RoundedTwice(size: nat)
      ensures Rounded(Rounded(size)) == Rounded(size)
    {
    }

    lemma LiveMember(l: Layout, k: nat)
      requires k < |l| && l[k].used
      ensures l[k] in Live(l)
    {
    }

    /** rt_memheap_realloc */
    method Realloc(p: int, request: nat) returns (q: int, ghost c: Block)
      requires Valid() && (p == NULL || Owned(layout, p))
      modifies this
      ensures Valid()
      ensures request == 0 && p != NULL ==> q == NULL && Live(layout) == Live(old(layout)) - {old(layout)[IndexOf(old(layout), p)]}
      ensures request == 0 && p == NULL ==> q == NULL && unchanged(this)
      ensures request > 0 && p == NULL && q != NULL ==>
                Owned(layout, q) && c.at + HDR == q && c.len >= Rounded(request) + HDR
                && c !in Live(old(layout)) && Live(layout) == Live(old(layout)) + {c}
      ensures request > 0 && p != NULL && q != NULL ==>
                var b := old(layout)[IndexOf(old(layout), p)];
                Owned(layout, q) && c.at + HDR == q && c.len >= Rounded(request) + HDR
                && Live(layout) == Live(old(layout)) - {b} + {c}
                && (q != p ==> c !in Live(old(layout)))
      ensures request > 0 && p != NULL ==>
                var b, n := old(layout)[IndexOf(old(layout), p)], Rounded(request);
                && (q == p <==> n <= b.len - HDR || Room(old(layout), IndexOf(old(layout), p), n))
                && (q == p ==> c.len == if b.len - 2 * HDR - MINI <= n <= b.len - HDR then b.len else n + HDR)
      ensures request > 0 && q == NULL ==> unchanged(this)
      ensures p == NULL || q == NULL ==> SameData(old(data), data, Live(old(layout)))
      ensures request > 0 && p != NULL && q != NULL ==>
                var b := old(layout)[IndexOf(old(layout), p)];
                && SameData(old(data), data, Live(old(layout)) - {b})
                && SameBytes(old(data), p, data, q, Min(b.len - HDR, Rounded(request)))
      ensures request > 0 && (p == NULL || q != p) ==>
                (q == NULL <==> Rounded(request) >= old(available) || NoFit(old(layout), Rounded(request)))
    {
      hide FirstFit; hide TooSmall; hide Split; hide Tiles; hide Relisted; hide Without; hide Peak; hide Shaped; hide Coalesced; hide FreeBytes; hide FreeAts; hide Blocks; hide Ring.IsRing;
      hide Live; hide Nodes; hide AlignUp; hide NoFit; hide Owned; hide SameData; hide SameBytes;
      SameDataRefl(data, Live(layout));
      q, c := NULL, Block(0, 0, false);
      if request == 0 {
        Free(p);
        return;
      }
      var newsize := AlignUp(request);
      if newsize < MINI {
        newsize := MINI;
      }
      assert newsize == Rounded(request);
      RoundedTwice(request);
      if p == NULL {
        q, c := Alloc(newsize);
        return;
      }
      ghost var l, k, d := layout, IndexOf(layout, p), data;
      ghost var b := l[k];
      LiveMember(l, k);
      var h := p - HDR;
      HeaderAt(l, next, prev, used, start, Hi(), k);
      var oldsize := next[h] - h - HDR;
      if newsize > oldsize {
        var n := next[h];
        if !used[n] {
          HeaderAt(l, next, prev, used, start, Hi(), k + 1);
          if next[n] - n - HDR + oldsize > newsize + MINI {
            GrowInPlace(h, newsize, k);
            q, c := p, Block(h, newsize + HDR, true);
            Placed(c);
            StayedData(d, data, Live(l), b, oldsize);
            return;
          }
        }
        q, c := Move(p, newsize, k);
        return;
      }
      if newsize + HDR + MINI >= oldsize {
        q, c := p, b;
        StayedData(d, data, Live(l), b, newsize);
        return;
      }
      c := Cut(p, newsize, k);
      q := p;
    }

    /** The part of rt_memheap_realloc for a block that is much too large. */
    method Cut(p: int, newsize: nat, ghost k: nat) returns (ghost c: Block)
      requires Valid() && k + 1 < |layout| && layout[k].used && layout[k].at + HDR == p
      requires newsize % 4 == 0 && newsize + HDR + MINI < layout[k].len - HDR
      modifies this
      ensures Valid()
      ensures var b := old(layout)[k];
              && Owned(layout, p) && c == Block(p - HDR, newsize + HDR, true) && Live(layout) == Live(old(layout)) - {b} + {c}
              && SameData(old(data), data, Live(old(layout)) - {b}) && SameBytes(old(data), p, data, p, newsize)
    {
      hide Shaped; hide Coalesced; hide FreeBytes; hide FreeAts; hide Blocks; hide Ring.IsRing;
      hide Live; hide Nodes; hide SameData; hide SameBytes; hide Owned; hide Without; hide Peak;
      ghost var l, d := layout, data;
      HeaderAt(l, next, prev, used, start, Hi(), k);
      c := Block(p - HDR, newsize + HDR, true);
      ShrinkInPlace(p - HDR, newsize, k);
      Placed(c);
      ShrunkData(d, data, Live(l), l[k], c);
    }

    /** The part of rt_memheap_realloc that moves a block that cannot grow. */
    method Move(p: int, newsize: nat, ghost k: nat) returns (q: int, ghost c: Block)
      requires Valid() && k + 1 < |layout| && layout[k].used && layout[k].at + HDR == p
      requires newsize == Rounded(newsize) && newsize > layout[k].len - HDR
      modifies this
      ensures Valid()
      ensures q == NULL ==> unchanged(this)
      ensures q == NULL <==> newsize >= old(available) || NoFit(old(layout), newsize)
      ensures q != NULL ==>
                var b := old(layout)[k];
                && Owned(layout, q) && c.at + HDR == q && c.len >= newsize + HDR && q != p && c !in Live(old(layout))
                && Live(layout) == Live(old(layout)) - {b} + {c} && SameData(old(data), data, Live(old(layout)) - {b})
                && SameBytes(old(data), p, data, q, b.len - HDR)
    {
      hide Relisted; hide Without; hide Peak; hide Shaped; hide Coalesced; hide FreeBytes; hide FreeAts; hide Blocks; hide Ring.IsRing;
      hide Live; hide Nodes; hide NoFit; hide Owned; hide SameData; hide SameBytes; hide Apart; hide Copied; hide FirstFit;
      ghost var l, d, b := layout, data, layout[k];
      LiveMember(l, k);
      HeaderAt(l, next, prev, used, start, Hi(), k);
      var h := p - HDR;
      var oldsize := next[h] - h - HDR;
      q, c := Alloc(newsize);
      if q != NULL {
        ghost var d1 := data;
        OwnedAt(l, k);
        OwnedBelow(q);
        Placed(b);
        Placed(c);
        LiveApart();
        assert Live(l) + {c} == Live(layout);
        data := Copied(data, q, p, oldsize);
        ghost var d2 := data;
        assert layout[IndexOf(layout, p)] == b;
        Free(p);
        Placed(c);
        MovedData(d, d1, d2, data, Live(l), b, c, oldsize);
      }
    }

    lemma OwnedAt(l: Layout, k: nat)
      requires k + 1 < |l| && l[k].used
      ensures Owned(l, l[k].at + HDR)
    {
    }

    lemma LiveApart()
      requires Shape()
      ensures Apart(Live(layout))
    {
      BlocksApart(layout, HDR, start, Hi());
    }

    lemma MovedData(d0: Bytes, d1: Bytes, d2: Bytes, d3: Bytes, live: set<Block>, b: Block, c: Block, n: nat)
      requires Apart(live + {c}) && b in live && c !in live && b.len == n + HDR && c.len >= n + HDR
      requires SameData(d0, d1, live) && d2 == Copied(d1, c.at + HDR, b.at + HDR, n) && SameData(d2, d3, live + {c})
      ensures SameData(d0, d3, live - {b}) && SameBytes(d0, b.at + HDR, d3, c.at + HDR, n)
    {
      assert c in live + {c} && SameIn(d2, d3, c) && SameIn(d0, d1, b);
      CopiedData(d1, d2, live, b, c, n);
      forall x | x in live - {b} ensures SameIn(d0, d3, x) {
        assert SameIn(d0, d1, x) && SameIn(d1, d2, x) && x in live + {c} && SameIn(d2, d3, x);
      }
      hide SameData;
      hide Apart;
    }

    lemma CopiedData(d1: Bytes, d2: Bytes, live: set<Block>, b: Block, c: Block, n: nat)
      requires Apart(live + {c}) && b in live && c !in live && b.len == n + HDR && c.len >= n + HDR
      requires d2 == Copied(d1, c.at + HDR, b.at + HDR, n)
      ensures SameData(d1, d2, live)
      ensures SameBytes(d1, b.at + HDR, d2, c.at + HDR, n)
    {
      forall x | x in live ensures SameIn(d1, d2, x) {
        assert x in live + {c} && c in live + {c};
        assert x.End() <= c.at || c.End() <= x.at;
      }
    }

    lemma StayedData(d0: Bytes, d1: Bytes, live: set<Block>, b: Block, n: int)
      requires SameData(d0, d1, live) && b in live && n <= b.len - HDR
      ensures SameData(d0, d1, live - {b}) && SameBytes(d0, b.at + HDR, d1, b.at + HDR, n)
    {
      assert SameIn(d0, d1, b);
    }

    lemma ShrunkData(d0: Bytes, d1: Bytes, live: set<Block>, b: Block, c: Block)
      requires SameData(d0, d1, live - {b} + {c}) && c.at == b.at
      ensures SameData(d0, d1, live - {b}) && SameBytes(d0, b.at + HDR, d1, b.at + HDR, c.len - HDR)
    {
      assert SameIn(d0, d1, c);
    }
  }
}
