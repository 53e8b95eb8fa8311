/** Address-ordered block layouts, shared by the two header-linked heaps (mem.c and
    memheap.c).  A layout lists every block of the heap from low to high address.  The
    operations below are what allocating, releasing and shrinking a block mean for the
    layout; the heap classes prove that their header links follow them. */
module Tiling {

  /** `len` counts the block's header; `at + len` is where the next block starts. */
  datatype Block = Block(at: int, len: int, used: bool) {
    function End(): int { at + len }
  }

  type Layout = seq<Block>

  /** RT_ALIGN with RT_ALIGN_SIZE 4. */
  function AlignUp(n: nat): (r: nat)
    ensures n <= r < n + 4 && r % 4 == 0
  {
    (n + 3) / 4 * 4
  }

  /** The blocks tile `[lo, hi)` in address order; each has room for a header of `h` bytes. */
  ghost predicate Tiles(l: Layout, h: int, lo: int, hi: int) {
    if l == [] then lo == hi
    else l[0].at == lo && l[0].len >= h && Tiles(l[1..], h, l[0].End(), hi)
  }

  /** What a tiling says position by position. */
  ghost predicate Ordered(l: Layout, h: int, lo: int, hi: int) {
    && (forall i :: 0 <= i < |l| ==> l[i].len >= h && lo <= l[i].at && l[i].End() <= hi)
    && (forall i, j :: 0 <= i < j < |l| ==> l[i].End() <= l[j].at)
    && (forall i, j :: 0 <= i < |l| && j == i + 1 && j < |l| ==> l[i].End() == l[j].at)
    && (|l| > 0 ==> l[0].at == lo && l[|l| - 1].End() == hi)
  }

  lemma {:induction false} TilesOrdered(l: Layout, h: int, lo: int, hi: int)
    requires 0 < h && Tiles(l, h, lo, hi)
    ensures Ordered(l, h, lo, hi) && lo <= hi
  {
    if l != [] {
      var t := l[1..];
      TilesOrdered(t, h, l[0].End(), hi);
      hide Tiles;
      forall i | 0 < i < |l| ensures l[i] == t[i - 1] && l[i].len >= h && l[0].End() <= l[i].at && l[i].End() <= hi {
      }
      forall i, j | 0 < i < j < |l| ensures l[i].End() <= l[j].at && (j == i + 1 ==> l[i].End() == l[j].at) {
        assert l[i] == t[i - 1] && l[j] == t[j - 1];
      }
    }
  }

  lemma {:induction false} TilesConcat(a: Layout, b: Layout, h: int, lo: int, mid: int, hi: int)
    requires Tiles(a, h, lo, mid) && Tiles(b, h, mid, hi)
    ensures Tiles(a + b, h, lo, hi)
  {
    if a == [] {
      assert a + b == b;
    } else {
      assert (a + b)[1..] == a[1..] + b;
      TilesConcat(a[1..], b, h, a[0].End(), mid, hi);
    }
  }

  lemma {:induction false} TilesCut(l: Layout, k: nat, h: int, lo: int, hi: int) returns (mid: int)
    requires k <= |l| && Tiles(l, h, lo, hi)
    ensures Tiles(l[..k], h, lo, mid) && Tiles(l[k..], h, mid, hi)
    ensures k < |l| ==> mid == l[k].at
    ensures k > 0 ==> mid == l[k - 1].End()
  {
    if k == 0 {
      mid := lo;
      assert l[..0] == [] && l[0..] == l;
    } else {
      mid := TilesCut(l[1..], k - 1, h, l[0].End(), hi);
      assert l[1..][..k - 1] == l[..k][1..] && l[1..][k - 1..] == l[k..];
    }
  }

  /** No two free blocks are neighbours. */
  ghost predicate Coalesced(l: Layout) {
    forall i, j :: 0 <= i < |l| && j == i + 1 && j < |l| ==> l[i].used || l[j].used
  }

  /** The client's view: the blocks handed out and not yet taken back. */
  ghost function Live(l: Layout): set<Block> {
    set b | b in l && b.used
  }

  function UsedBytes(l: Layout): int {
    if l == [] then 0 else UsedBytes(l[..|l| - 1]) + (if l[|l| - 1].used then l[|l| - 1].len else 0)
  }

  /** Sum of the data areas (without the `h` header bytes) of the free blocks. */
  function FreeBytes(l: Layout, h: int): int {
    if l == [] then 0 else FreeBytes(l[..|l| - 1], h) + (if l[|l| - 1].used then 0 else l[|l| - 1].len - h)
  }

  lemma {:induction false} UsedBytesConcat(a: Layout, b: Layout)
    ensures UsedBytes(a + b) == UsedBytes(a) + UsedBytes(b)
  {
    if b == [] {
      assert a + b == a;
    } else {
      assert (a + b)[..|a + b| - 1] == a + b[..|b| - 1];
      UsedBytesConcat(a, b[..|b| - 1]);
    }
  }

  lemma {:induction false} FreeBytesConcat(a: Layout, b: Layout, h: int)
    ensures FreeBytes(a + b, h) == FreeBytes(a, h) + FreeBytes(b, h)
  {
    if b == [] {
      assert a + b == a;
    } else {
      assert (a + b)[..|a + b| - 1] == a + b[..|b| - 1];
      FreeBytesConcat(a, b[..|b| - 1], h);
    }
  }

  /** Block `k` gives way to the blocks `mid`. */
  function Replace(l: Layout, k: nat, n: nat, mid: Layout): (r: Layout)
    requires k + n <= |l|
  {
    l[..k] + mid + l[k + n..]
  }

  lemma ReplaceSums(l: Layout, k: nat, n: nat, mid: Layout, h: int)
    requires k + n <= |l|
    ensures UsedBytes(Replace(l, k, n, mid)) == UsedBytes(l) - UsedBytes(l[k..k + n]) + UsedBytes(mid)
    ensures FreeBytes(Replace(l, k, n, mid), h) == FreeBytes(l, h) - FreeBytes(l[k..k + n], h) + FreeBytes(mid, h)
  {
    assert l == l[..k] + l[k..k + n] + l[k + n..];
    UsedBytesConcat(l[..k] + mid, l[k + n..]);
    UsedBytesConcat(l[..k], mid);
    UsedBytesConcat(l[..k] + l[k..k + n], l[k + n..]);
    UsedBytesConcat(l[..k], l[k..k + n]);
    FreeBytesConcat(l[..k] + mid, l[k + n..], h);
    FreeBytesConcat(l[..k], mid, h);
    FreeBytesConcat(l[..k] + l[k..k + n], l[k + n..], h);
    FreeBytesConcat(l[..k], l[k..k + n], h);
  }

  /** Tiles may be exchanged for tiles of the same extent. */
  lemma ReplaceTiles(l: Layout, k: nat, n: nat, mid: Layout, h: int, lo: int, hi: int)
    requires Tiles(l, h, lo, hi) && k + n <= |l| && 0 < n
    requires Tiles(mid, h, l[k].at, l[k + n - 1].End())
    ensures Tiles(Replace(l, k, n, mid), h, lo, hi)
  {
    var p := TilesCut(l, k, h, lo, hi);
    var q := TilesCut(l, k + n, h, lo, hi);
    TilesConcat(l[..k], mid, h, lo, p, q);
    TilesConcat(l[..k] + mid, l[k + n..], h, lo, q, hi);
  }

  /** Sizes of a run of two neighbours and of one block, for use with `ReplaceSums`. */
  lemma SumOne(b: Block, h: int)
    ensures UsedBytes([b]) == if b.used then b.len else 0
    ensures FreeBytes([b], h) == if b.used then 0 else b.len - h
  {
    assert [b][..0] == [];
  }

  lemma SumTwo(a: Block, b: Block, h: int)
    ensures UsedBytes([a, b]) == UsedBytes([a]) + UsedBytes([b])
    ensures FreeBytes([a, b], h) == FreeBytes([a], h) + FreeBytes([b], h)
  {
    assert [a, b] == [a] + [b];
    UsedBytesConcat([a], [b]);
    FreeBytesConcat([a], [b], h);
  }

  // ---- Splitting a block in two --------------------------------------------------------------

  /** Block `k` keeps its first `n` bytes and becomes used; the rest becomes a free block. */
  function Split(l: Layout, k: nat, n: int): (r: Layout)
    requires k < |l|
  {
    Replace(l, k, 1, [Block(l[k].at, n, true), Block(l[k].at + n, l[k].len - n, false)])
  }

  /** Block `k` becomes used as a whole. */
  function Take(l: Layout, k: nat): (r: Layout)
    requires k < |l|
  {
    Replace(l, k, 1, [l[k].(used := true)])
  }

  /** Blocks `k` and `k + 1` become one, with the state of block `k`. */
  function Merge(l: Layout, k: nat): (r: Layout)
    requires k + 1 < |l|
  {
    Replace(l, k, 2, [Block(l[k].at, l[k].len + l[k + 1].len, l[k].used)])
  }

  lemma SplitKeeps(l: Layout, k: nat, n: int, h: int, lo: int, hi: int)
    requires 0 < h && Tiles(l, h, lo, hi) && k < |l| && h <= n && n + h <= l[k].len
    ensures Tiles(Split(l, k, n), h, lo, hi)
    ensures |Split(l, k, n)| == |l| + 1
    ensures UsedBytes(Split(l, k, n)) == UsedBytes(l) - (if l[k].used then l[k].len else 0) + n
    ensures FreeBytes(Split(l, k, n), h) == FreeBytes(l, h) - (if l[k].used then 0 else l[k].len - h) + (l[k].len - n - h)
  {
    var a, b := Block(l[k].at, n, true), Block(l[k].at + n, l[k].len - n, false);
    assert [a, b][1..] == [b] && [b][1..] == [];
    ReplaceTiles(l, k, 1, [a, b], h, lo, hi);
    ReplaceSums(l, k, 1, [a, b], h);
    assert l[k..k + 1] == [l[k]];
    SumOne(l[k], h); SumOne(a, h); SumOne(b, h); SumTwo(a, b, h);
  }

  lemma TakeKeeps(l: Layout, k: nat, h: int, lo: int, hi: int)
    requires 0 < h && Tiles(l, h, lo, hi) && k < |l|
    ensures Tiles(Take(l, k), h, lo, hi)
    ensures Take(l, k) == l[k := l[k].(used := true)]
    ensures UsedBytes(Take(l, k)) == UsedBytes(l) + (if l[k].used then 0 else l[k].len)
    ensures FreeBytes(Take(l, k), h) == FreeBytes(l, h) - (if l[k].used then 0 else l[k].len - h)
  {
    var a := l[k].(used := true);
    var _ := TilesCut(l, k, h, lo, hi);
    ReplaceTiles(l, k, 1, [a], h, lo, hi);
    ReplaceSums(l, k, 1, [a], h);
    assert l[k..k + 1] == [l[k]];
    SumOne(l[k], h); SumOne(a, h);
  }

  /** Block `k` becomes free as a whole, before any merging. */
  function Drop(l: Layout, k: nat): (r: Layout)
    requires k < |l|
  {
    Replace(l, k, 1, [l[k].(used := false)])
  }

  lemma DropKeeps(l: Layout, k: nat, h: int, lo: int, hi: int)
    requires 0 < h && Tiles(l, h, lo, hi) && k < |l|
    ensures Tiles(Drop(l, k), h, lo, hi)
    ensures Drop(l, k) == l[k := l[k].(used := false)]
    ensures UsedBytes(Drop(l, k)) == UsedBytes(l) - (if l[k].used then l[k].len else 0)
    ensures FreeBytes(Drop(l, k), h) == FreeBytes(l, h) + (if l[k].used then l[k].len - h else 0)
  {
    var a := l[k].(used := false);
    var _ := TilesCut(l, k, h, lo, hi);
    ReplaceTiles(l, k, 1, [a], h, lo, hi);
    ReplaceSums(l, k, 1, [a], h);
    assert l[k..k + 1] == [l[k]];
    SumOne(l[k], h); SumOne(a, h);
  }

  lemma MergeKeeps(l: Layout, k: nat, h: int, lo: int, hi: int)
    requires 0 < h && Tiles(l, h, lo, hi) && k + 1 < |l| && !l[k + 1].used
    ensures Tiles(Merge(l, k), h, lo, hi)
    ensures |Merge(l, k)| == |l| - 1
    ensures UsedBytes(Merge(l, k)) == UsedBytes(l) + (if l[k].used then l[k + 1].len else 0)
    ensures FreeBytes(Merge(l, k), h) == FreeBytes(l, h) + (if l[k].used then h - l[k + 1].len else h)
  {
    var a := Block(l[k].at, l[k].len + l[k + 1].len, l[k].used);
    var _ := TilesCut(l, k, h, lo, hi);
    var _ := TilesCut(l, k + 1, h, lo, hi);
    ReplaceTiles(l, k, 2, [a], h, lo, hi);
    ReplaceSums(l, k, 2, [a], h);
    assert l[k..k + 2] == [l[k], l[k + 1]];
    SumOne(l[k], h); SumOne(l[k + 1], h); SumTwo(l[k], l[k + 1], h); SumOne(a, h);
  }

  lemma MergeLive(l: Layout, k: nat)
    requires k + 1 < |l| && !l[k].used && !l[k + 1].used
    ensures Live(Merge(l, k)) == Live(l)
  {
    var a := Block(l[k].at, l[k].len + l[k + 1].len, false);
    LiveReplace(l, k, 2, [a]);
    assert l[k..k + 2] == [l[k], l[k + 1]];
  }

  lemma LiveReplace(l: Layout, k: nat, n: nat, mid: Layout)
    requires k + n <= |l|
    ensures Live(Replace(l, k, n, mid)) == Live(l[..k] + l[k + n..]) + Live(mid)
    ensures Live(l) == Live(l[..k] + l[k + n..]) + Live(l[k..k + n])
  {
    assert l == l[..k] + l[k..k + n] + l[k + n..];
  }

  lemma WithoutPosition(l: Layout, k: nat)
    requires k < |l| && forall i :: 0 <= i < |l| && i != k ==> l[i] != l[k]
    ensures forall b :: b in l[..k] + l[k + 1..] <==> b in l && b != l[k]
  {
    var rest := l[..k] + l[k + 1..];
    forall b ensures b in rest <==> b in l && b != l[k] {
      if b in rest {
        var i :| 0 <= i < |rest| && rest[i] == b;
        assert b == l[if i < k then i else i + 1];
      }
      if b in l && b != l[k] {
        var j :| 0 <= j < |l| && l[j] == b;
        assert b == rest[if j < k then j else j - 1];
      }
    }
  }

  /** Distinct positions of a tiling hold distinct blocks, so taking one block out of the live
      set takes out exactly its own position. */
  lemma LiveAt(l: Layout, k: nat, h: int, lo: int, hi: int)
    requires 0 < h && Tiles(l, h, lo, hi) && k < |l|
    ensures Live(l[..k] + l[k + 1..]) == Live(l) - {l[k]}
  {
    hide Tiles;
    TilesOrdered(l, h, lo, hi);
    forall i | 0 <= i < |l| && i != k ensures l[i] != l[k] {
      assert if i < k then l[i].End() <= l[k].at else l[k].End() <= l[i].at;
    }
    hide Ordered;
    WithoutPosition(l, k);
  }

  lemma SplitLive(l: Layout, k: nat, n: int, h: int, lo: int, hi: int)
    requires 0 < h && Tiles(l, h, lo, hi) && k < |l|
    ensures Live(Split(l, k, n)) == Live(l) - {l[k]} + {Block(l[k].at, n, true)}
  {
    var a, b := Block(l[k].at, n, true), Block(l[k].at + n, l[k].len - n, false);
    LiveReplace(l, k, 1, [a, b]);
    LiveAt(l, k, h, lo, hi);
    assert Live([a, b]) == {a};
  }

  /** A used block that swallows a free successor keeps its identity as a live block. */
  lemma MergeUsedLive(l: Layout, k: nat, h: int, lo: int, hi: int)
    requires 0 < h && Tiles(l, h, lo, hi) && k + 1 < |l| && l[k].used && !l[k + 1].used
    ensures Live(Merge(l, k)) == Live(l) - {l[k]} + {Block(l[k].at, l[k].len + l[k + 1].len, true)}
    ensures Block(l[k].at, l[k].len + l[k + 1].len, true) !in Live(l)
  {
    var a := Block(l[k].at, l[k].len + l[k + 1].len, true);
    LiveReplace(l, k, 2, [a]);
    LiveAt(l, k, h, lo, hi);
    assert l[k..k + 2] == [l[k], l[k + 1]] && Live([a]) == {a} && Live([l[k], l[k + 1]]) == {l[k]};
    assert l[..k] + l[k + 1..] == l[..k] + [l[k + 1]] + l[k + 2..];
    assert Live(l[..k] + l[k + 1..]) == Live(l[..k] + l[k + 2..]);
    TilesOrdered(l, h, lo, hi);
  }

  lemma MarkLive(l: Layout, k: nat, u: bool, h: int, lo: int, hi: int)
    requires 0 < h && Tiles(l, h, lo, hi) && k < |l|
    ensures Live(Replace(l, k, 1, [l[k].(used := u)])) == Live(l) - {l[k]} + (if u then {l[k].(used := u)} else {})
  {
    var a := l[k].(used := u);
    LiveReplace(l, k, 1, [a]);
    LiveAt(l, k, h, lo, hi);
    assert Live([a]) == if u then {a} else {};
  }

  // ---- Merging a freed block with its free neighbours ----------------------------------------

  /** Coalesced, except that block `k` may be a free neighbour of free blocks. */
  ghost predicate CoalescedBut(l: Layout, k: nat) {
    forall i, j :: 0 <= i < |l| && j == i + 1 && j < |l| && i != k && j != k ==> l[i].used || l[j].used
  }

  /** Merges free block `k` with a free successor and a free predecessor. */
  function Coalesce(l: Layout, k: nat): (r: Layout)
    requires k < |l|
  {
    var l1 := if k + 1 < |l| && !l[k + 1].used then Merge(l, k) else l;
    if k > 0 && !l1[k - 1].used then Merge(l1, k - 1) else l1
  }

  lemma MergeCoalesces(l: Layout, k: nat)
    requires k + 1 < |l| && !l[k].used && !l[k + 1].used
    requires CoalescedBut(l, k)
    ensures var r := Merge(l, k);
            CoalescedBut(r, k) && !r[k].used && (k + 1 < |r| && k + 2 < |l| ==> r[k + 1] == l[k + 2])
  {
  }

  /** The header bytes that merging turns into data. */
  function Gain(l: Layout, k: nat, h: int): int
    requires k < |l|
  {
    (if k + 1 < |l| && !l[k + 1].used then h else 0) + (if k > 0 && !l[k - 1].used then h else 0)
  }

  lemma CoalesceForward(l: Layout, k: nat, h: int, lo: int, hi: int) returns (l1: Layout)
    requires 0 < h && Tiles(l, h, lo, hi) && k < |l| && !l[k].used && CoalescedBut(l, k)
    requires k + 2 < |l| ==> l[k + 1].used || l[k + 2].used
    ensures l1 == if k + 1 < |l| && !l[k + 1].used then Merge(l, k) else l
    ensures Tiles(l1, h, lo, hi) && k < |l1| && !l1[k].used && CoalescedBut(l1, k)
    ensures k + 1 < |l1| ==> l1[k + 1].used
    ensures k > 0 ==> l1[k - 1] == l[k - 1]
    ensures UsedBytes(l1) == UsedBytes(l) && Live(l1) == Live(l)
    ensures FreeBytes(l1, h) == FreeBytes(l, h) + (if k + 1 < |l| && !l[k + 1].used then h else 0)
  {
    l1 := l;
    if k + 1 < |l| && !l[k + 1].used {
      MergeKeeps(l, k, h, lo, hi);
      MergeLive(l, k);
      MergeCoalesces(l, k);
      l1 := Merge(l, k);
    }
  }

  lemma MergeBackward(l: Layout, k: nat)
    requires k + 1 < |l| && !l[k].used && !l[k + 1].used
    requires CoalescedBut(l, k + 1) && (k + 2 < |l| ==> l[k + 2].used)
    ensures Coalesced(Merge(l, k))
  {
    var r := Merge(l, k);
    assert forall i :: 0 <= i < k ==> r[i] == l[i];
    assert forall i :: k < i < |r| ==> r[i] == l[i + 1];
  }

  lemma CoalescedOut(l: Layout, k: nat)
    requires k < |l| && CoalescedBut(l, k) && (k > 0 ==> l[k - 1].used) && (k + 1 < |l| ==> l[k + 1].used)
    ensures Coalesced(l)
  {
  }

  lemma CoalesceKeeps(l: Layout, k: nat, h: int, lo: int, hi: int)
    requires 0 < h && Tiles(l, h, lo, hi) && k < |l| && !l[k].used && CoalescedBut(l, k)
    requires k + 2 < |l| ==> l[k + 1].used || l[k + 2].used
    ensures Tiles(Coalesce(l, k), h, lo, hi) && Coalesced(Coalesce(l, k))
    ensures UsedBytes(Coalesce(l, k)) == UsedBytes(l)
    ensures FreeBytes(Coalesce(l, k), h) == FreeBytes(l, h) + Gain(l, k, h)
    ensures Live(Coalesce(l, k)) == Live(l)
  {
    hide Tiles; hide Live; hide UsedBytes; hide FreeBytes; hide Merge; hide CoalescedBut; hide Coalesced;
    var l1 := CoalesceForward(l, k, h, lo, hi);
    if k == 0 || l1[k - 1].used {
      CoalescedOut(l1, k);
    } else {
      MergeKeeps(l1, k - 1, h, lo, hi);
      MergeLive(l1, k - 1);
      MergeBackward(l1, k - 1);
    }
  }

  // ---- Blocks as a set: who is where ---------------------------------------------------------

  ghost function Blocks(l: Layout): set<Block> {
    set b | b in l
  }

  /** No two blocks overlap. */
  ghost predicate Apart(s: set<Block>) {
    forall b, c :: b in s && c in s && b != c ==> b.End() <= c.at || c.End() <= b.at
  }

  lemma BlocksApart(l: Layout, h: int, lo: int, hi: int)
    requires 0 < h && Tiles(l, h, lo, hi)
    ensures Apart(Blocks(l))
    ensures forall b :: b in Blocks(l) ==> b.len >= h && lo <= b.at && b.End() <= hi
  {
    TilesOrdered(l, h, lo, hi);
  }

  lemma BlocksConcat(a: Layout, b: Layout)
    ensures Blocks(a + b) == Blocks(a) + Blocks(b)
  {
  }

  lemma CutDisjoint(l: Layout, k: nat, h: int, lo: int, hi: int)
    requires 0 < h && Tiles(l, h, lo, hi) && k <= |l|
    ensures Blocks(l[..k]) !! Blocks(l[k..])
  {
    var mid := TilesCut(l, k, h, lo, hi);
    BlocksApart(l[..k], h, lo, mid);
    BlocksApart(l[k..], h, mid, hi);
  }

  /** Replacing blocks `k .. k + n` exchanges exactly those members. */
  lemma BlocksReplace(l: Layout, k: nat, n: nat, mid: Layout, h: int, lo: int, hi: int)
    requires 0 < h && Tiles(l, h, lo, hi) && k + n <= |l|
    ensures Blocks(Replace(l, k, n, mid)) == Blocks(l) - Blocks(l[k..k + n]) + Blocks(mid)
  {
    hide Blocks;
    hide Tiles;
    var a, b, c := l[..k], l[k..k + n], l[k + n..];
    assert l[k..] == b + c && l == a + (b + c) && l[..k + n] == a + b;
    CutDisjoint(l, k, h, lo, hi);
    CutDisjoint(l, k + n, h, lo, hi);
    BlocksConcat(a, b + c);
    BlocksConcat(b, c);
    BlocksConcat(a, b);
    BlocksConcat(a + mid, c);
    BlocksConcat(a, mid);
  }

  /** Changing the mark of block `k` exchanges exactly that member. */
  lemma MarkBlocks(l: Layout, k: nat, u: bool, h: int, lo: int, hi: int)
    requires 0 < h && Tiles(l, h, lo, hi) && k < |l|
    ensures Tiles(Replace(l, k, 1, [l[k].(used := u)]), h, lo, hi)
    ensures Blocks(Replace(l, k, 1, [l[k].(used := u)])) == Blocks(l) - {l[k]} + {l[k].(used := u)}
  {
    var a := l[k].(used := u);
    TakeKeeps(l, k, h, lo, hi);
    DropKeeps(l, k, h, lo, hi);
    hide Tiles;
    BlocksReplace(l, k, 1, [a], h, lo, hi);
    assert l[k..k + 1] == [l[k]];
    BlocksOne(l[k]);
    BlocksOne(a);
    hide Blocks;
  }

  lemma BlocksOne(b: Block)
    ensures Blocks([b]) == {b}
  {
  }

  // ---- The addresses of the free blocks ---------------------------------------------------------

  ghost function FreeAts(s: set<Block>): set<int> {
    set b | b in s && !b.used :: b.at
  }

  lemma FreeAtsSplit(s: set<Block>, b: Block, n: int)
    requires Apart(s) && b in s && 0 < n < b.len && (forall d :: d in s ==> d.len > 0)
    ensures FreeAts(s - {b} + {Block(b.at, n, true), Block(b.at + n, b.len - n, false)}) == FreeAts(s) - {b.at} + {b.at + n}
  {
    var r := s - {b} + {Block(b.at, n, true), Block(b.at + n, b.len - n, false)};
    forall x | x in FreeAts(r) ensures x in FreeAts(s) - {b.at} + {b.at + n} {
      var d :| d in r && !d.used && d.at == x;
      assert d in s ==> d.at in FreeAts(s);
    }
    forall x | x in FreeAts(s) - {b.at} + {b.at + n} ensures x in FreeAts(r) {
      if x == b.at + n {
        assert Block(b.at + n, b.len - n, false) in r;
      } else {
        var d :| d in s && !d.used && d.at == x;
        assert d in r;
      }
    }
  }

  lemma FreeAtsMerge(s: set<Block>, b: Block, c: Block)
    requires Apart(s) && b in s && c in s && c.at == b.End() && !c.used && (forall d :: d in s ==> d.len > 0)
    ensures FreeAts(s - {b, c} + {Block(b.at, b.len + c.len, b.used)}) == FreeAts(s) - {c.at}
  {
    var a := Block(b.at, b.len + c.len, b.used);
    var r := s - {b, c} + {a};
    forall x | x in FreeAts(r) ensures x in FreeAts(s) - {c.at} {
      var d :| d in r && !d.used && d.at == x;
      assert (if d == a then b else d) in s;
    }
    forall x | x in FreeAts(s) - {c.at} ensures x in FreeAts(r) {
      var d :| d in s && !d.used && d.at == x;
      assert (if d == b then a else d) in r;
    }
  }

  lemma FreeAtsMark(s: set<Block>, b: Block, u: bool)
    requires Apart(s) && b in s && (forall d :: d in s ==> d.len > 0)
    ensures FreeAts(s - {b} + {b.(used := u)}) == FreeAts(s) - {b.at} + (if u then {} else {b.at})
  {
    var a := b.(used := u);
    var r := s - {b} + {a};
    forall x | x in FreeAts(r) ensures x in FreeAts(s) - {b.at} + (if u then {} else {b.at}) {
      var d :| d in r && !d.used && d.at == x;
      assert d in s ==> d.at in FreeAts(s);
    }
    forall x | x in FreeAts(s) - {b.at} + (if u then {} else {b.at}) ensures x in FreeAts(r) {
      if x == b.at {
        assert a in r;
      } else {
        var d :| d in s && !d.used && d.at == x;
        assert d in r;
      }
    }
  }
}
