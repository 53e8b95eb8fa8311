/** The zone allocator of slab.c, on top of the page allocator. Byte addresses; a page has 4096 bytes. */
module Slab {
  import opened Lists
  import opened PageRuns

  const PAGE := 4096
  const ZONES := 72
  const HEADER := 36 // sizeof(struct slab_zone) on a 32-bit machine

  // ---- Sizes and zone indices ---------------------------------------------------------------------------

  function RoundUp(n: int, unit: int): int
    requires unit > 0
  {
    (n + unit - 1) / unit * unit
  }

  lemma RoundUpBounds(n: int, unit: int)
    requires unit > 0
    ensures n <= RoundUp(n, unit) < n + unit
    ensures RoundUp(n, unit) % unit == 0
  {
    var q := (n + unit - 1) / unit;
    assert n + unit - 1 == q * unit + (n + unit - 1) % unit;
    MultipleMod(q, unit);
  }

  lemma MultipleMod(q: int, unit: int)
    requires unit > 0
    ensures q * unit % unit == 0
  {
    var m := q * unit;
    var d := m / unit;
    assert m == d * unit + m % unit;
    assert (q - d) * unit == m % unit;
    assert q - d >= 1 ==> (q - d) * unit >= unit;
    assert q - d <= -1 ==> (q - d) * unit <= -unit;
  }

  /** The zone index of a request and the chunk size it is rounded to. */
  function ZoneIndex(n: int): (int, int) {
    if n < 128 then var c := RoundUp(n, 8); (c / 8 - 1, c)
    else if n < 256 then var c := RoundUp(n, 16); (c / 16 + 7, c)
    else if n < 512 then var c := RoundUp(n, 32); (c / 32 + 15, c)
    else if n < 1024 then var c := RoundUp(n, 64); (c / 64 + 23, c)
    else if n < 2048 then var c := RoundUp(n, 128); (c / 128 + 31, c)
    else if n < 4096 then var c := RoundUp(n, 256); (c / 256 + 39, c)
    else if n < 8192 then var c := RoundUp(n, 512); (c / 512 + 47, c)
    else if n < 16384 then var c := RoundUp(n, 1024); (c / 1024 + 55, c)
    else (0, n)
  }

  /** The chunk size that belongs to a zone index: eight sizes per doubling. */
  function ChunkOf(zi: int): int {
    if zi < 16 then 8 * (zi + 1)
    else if zi < 24 then 16 * (zi - 7)
    else if zi < 32 then 32 * (zi - 15)
    else if zi < 40 then 64 * (zi - 23)
    else if zi < 48 then 128 * (zi - 31)
    else if zi < 56 then 256 * (zi - 39)
    else if zi < 64 then 512 * (zi - 47)
    else 1024 * (zi - 55)
  }

  /** The index is in range, it and the chunk size determine each other, and at most an eighth is wasted. */
  lemma ZoneIndexRounds(n: int)
    requires 0 < n < 16384
    ensures 0 <= ZoneIndex(n).0 < ZONES
    ensures ZoneIndex(n).1 == ChunkOf(ZoneIndex(n).0)
    ensures n <= ZoneIndex(n).1
    ensures ZoneIndex(n).1 - n < if n < 128 then 8 else n / 8 + 1
    ensures ZoneIndex(n).1 <= if n < 8192 then 8192 else 16384
  {
    hide RoundUp;
    RoundUpBounds(n, if n < 128 then 8 else if n < 256 then 16 else if n < 512 then 32 else if n < 1024 then 64
                     else if n < 2048 then 128 else if n < 4096 then 256 else if n < 8192 then 512 else 1024);
  }

  /** No smaller chunk would do. */
  lemma ZoneIndexTight(n: int, zi: int)
    requires 0 < n < 16384 && 0 <= zi < ZONES
    ensures n <= ChunkOf(zi) <==> ZoneIndex(n).0 <= zi
  {
    ZoneIndexRounds(n);
  }

  lemma SameChunkSameZone(m: int, n: int)
    requires 0 < m < 16384 && 0 < n < 16384
    ensures ZoneIndex(m).0 == ZoneIndex(n).0 <==> ZoneIndex(m).1 == ZoneIndex(n).1
    ensures m <= n ==> ZoneIndex(m).0 <= ZoneIndex(n).0
    ensures ZoneIndex(n).1 < 16384 ==> ZoneIndex(ZoneIndex(n).1) == ZoneIndex(n)
  {
    ZoneIndexRounds(m);
    ZoneIndexRounds(n);
    ZoneIndexTight(m, ZoneIndex(n).0);
    ZoneIndexTight(n, ZoneIndex(m).0);
    if ZoneIndex(n).1 < 16384 {
      ZoneIndexRounds(ZoneIndex(n).1);
      ZoneIndexTight(ZoneIndex(n).1, ZoneIndex(n).0);
    }
  }

  // ---- One zone -------------------------------------------------------------------------------------------

  predicate PowerOfTwo(n: int) {
    n == 1 || (n > 1 && n % 2 == 0 && PowerOfTwo(n / 2))
  }

  /** Where the chunks begin in a zone: behind the header, rounded to the size itself for powers of two. */
  function Off(size: int): int
    requires size > 0
  {
    if PowerOfTwo(size) then RoundUp(HEADER, size) else RoundUp(HEADER, 8)
  }

  datatype Zone = Zone(nfree: int, nmax: int, base: int, uindex: int, chunksize: int, zoneindex: int, freechunks: seq<int>) {
    function Slot(i: int): int { base + i * chunksize }

    /** Chunks handed out at least once. */
    ghost function Used(): set<int> {
      set i | 0 <= i <= uindex :: Slot(i)
    }

    /** Chunks now in the callers' hands. */
    ghost function Held(): set<int> {
      Used() - set a | a in freechunks
    }

    /** The zone's own accounting. */
    ghost predicate Ok(page: int, zoneSize: int) {
      && 0 <= zoneindex < ZONES && chunksize == ChunkOf(zoneindex)
      && base == page * PAGE + Off(chunksize)
      && nmax == (zoneSize - Off(chunksize)) / chunksize
      && 2 <= nmax && 0 <= uindex < nmax
      && Distinct(freechunks) && (forall a <- freechunks :: a in Used())
      && nfree == (nmax - 1 - uindex) + |freechunks|
    }
  }

  lemma SlotsApart(zn: Zone, i: int, j: int)
    requires zn.chunksize > 0 && i < j
    ensures zn.Slot(i) + zn.chunksize <= zn.Slot(j)
  {
    MulStep(i, j, zn.chunksize);
  }

  lemma MulStep(i: int, j: int, c: int)
    requires c > 0 && i < j
    ensures i * c + c <= j * c
  {
    assert j * c == i * c + (j - i) * c;
    MulAtLeast(j - i, c);
  }

  lemma {:induction false} MulAtLeast(k: int, c: int)
    requires c > 0 && k > 0
    ensures k * c >= c
  {
    if k > 1 {
      MulAtLeast(k - 1, c);
      assert k * c == (k - 1) * c + c;
    }
  }

  lemma {:induction false} UsedSize(zn: Zone)
    requires zn.chunksize > 0 && -1 <= zn.uindex
    ensures |zn.Used()| == zn.uindex + 1
    decreases zn.uindex + 1
  {
    if zn.uindex == -1 {
      assert zn.Used() == {};
    } else {
      var less := zn.(uindex := zn.uindex - 1);
      UsedSize(less);
      UsedGrows(less);
      assert zn == less.(uindex := less.uindex + 1);
    }
  }

  /** The next fresh chunk was never used. */
  lemma UsedGrows(zn: Zone)
    requires zn.chunksize > 0 && -1 <= zn.uindex
    ensures zn.Slot(zn.uindex + 1) !in zn.Used()
    ensures zn.(uindex := zn.uindex + 1).Used() == zn.Used() + {zn.Slot(zn.uindex + 1)}
  {
    var more := zn.(uindex := zn.uindex + 1);
    forall i | 0 <= i <= zn.uindex
      ensures zn.Slot(i) != zn.Slot(zn.uindex + 1)
    {
      SlotsApart(zn, i, zn.uindex + 1);
    }
    forall a
      ensures a in more.Used() <==> a in zn.Used() || a == zn.Slot(zn.uindex + 1)
    {
      if a in zn.Used() {
        var i :| 0 <= i <= zn.uindex && a == zn.Slot(i);
        assert a == more.Slot(i);
      }
      if a in more.Used() {
        var i :| 0 <= i <= more.uindex && a == more.Slot(i);
        assert a == zn.Slot(i);
      }
      assert more.Slot(more.uindex) == zn.Slot(zn.uindex + 1);
    }
  }

  lemma {:induction false} DistinctSize(s: seq<int>)
    requires Distinct(s)
    ensures |set a | a in s| == |s|
  {
    if s != [] {
      DistinctSize(s[1..]);
      assert (set a | a in s) == (set a | a in s[1..]) + {s[0]};
    }
  }

  /** The counter says how many chunks are out. */
  lemma HeldSize(zn: Zone, page: int, zoneSize: int)
    requires zn.Ok(page, zoneSize)
    ensures |zn.Held()| == zn.nmax - zn.nfree
    ensures zn.nfree == zn.nmax <==> zn.Held() == {}
  {
    UsedSize(zn);
    DistinctSize(zn.freechunks);
    var f := set a | a in zn.freechunks;
    assert f <= zn.Used();
    hide ChunkOf;
    hide Distinct;
    assert zn.Used() == zn.Held() + f;
    assert |zn.Held() + f| == |zn.Held()| + |f|;
  }

  lemma OffBounds(size: int)
    requires size >= 8
    ensures HEADER <= Off(size) < HEADER + size
  {
    RoundUpBounds(HEADER, size);
    RoundUpBounds(HEADER, 8);
  }

  /** Used chunks lie behind the header, inside the zone's bytes. */
  lemma UsedInside(zn: Zone, page: int, zoneSize: int, a: int)
    requires zn.Ok(page, zoneSize) && a in zn.Used()
    ensures page * PAGE + HEADER <= a && a + zn.chunksize <= page * PAGE + zoneSize
  {
    var i :| 0 <= i <= zn.uindex && a == zn.Slot(i);
    OffBounds(zn.chunksize);
    var room := zoneSize - Off(zn.chunksize);
    Fits(i, zn.nmax, zn.chunksize, room);
  }

  lemma Fits(i: int, n: int, c: int, room: int)
    requires 0 <= i < n && c > 0 && n == room / c
    ensures 0 <= i * c && i * c + c <= room
  {
    assert room == n * c + room % c;
    MulStep(i, n, c);
    if i > 0 {
      MulAtLeast(i, c);
    }
  }

  lemma UsedApart(zn: Zone, a: int, b: int)
    requires zn.chunksize > 0 && a in zn.Used() && b in zn.Used() && a < b
    ensures a + zn.chunksize <= b
  {
    var i :| 0 <= i <= zn.uindex && a == zn.Slot(i);
    var j :| 0 <= j <= zn.uindex && b == zn.Slot(j);
    if j < i {
      SlotsApart(zn, j, i);
    } else if i < j {
      SlotsApart(zn, i, j);
    }
  }

  /** A new zone, its first chunk handed out. */
  function NewZone(page: int, zi: int, size: int, zoneSize: int): Zone
    requires size > 0
  {
    var off := Off(size);
    var nmax := (zoneSize - off) / size;
    Zone(nmax - 1, nmax, page * PAGE + off, 0, size, zi, [])
  }

  /** Taking a chunk: fresh ones first, then the most recently freed. */
  function TakeChunk(zn: Zone): (Zone, int)
    requires zn.uindex + 1 == zn.nmax ==> zn.freechunks != []
  {
    var z := zn.(nfree := zn.nfree - 1);
    if zn.uindex + 1 != zn.nmax then
      var z1 := z.(uindex := zn.uindex + 1);
      (z1, z1.Slot(z1.uindex))
    else
      (z.(freechunks := zn.freechunks[1..]), zn.freechunks[0])
  }

  function PutChunk(zn: Zone, a: int): Zone {
    zn.(freechunks := [a] + zn.freechunks, nfree := zn.nfree + 1)
  }

  lemma NewZoneOk(page: int, zi: int, zoneSize: int)
    requires 0 <= zi < ZONES && 3 * ChunkOf(zi) + HEADER <= zoneSize
    ensures var zn := NewZone(page, zi, ChunkOf(zi), zoneSize); zn.Ok(page, zoneSize) && zn.Held() == {zn.base} && zn.nfree > 0
  {
    var size := ChunkOf(zi);
    var zn := NewZone(page, zi, size, zoneSize);
    OffBounds(size);
    TwoFit(zoneSize - Off(size), size);
    UsedGrows(zn.(uindex := -1));
    assert zn.(uindex := -1).Used() == {};
    assert zn.(uindex := -1).(uindex := 0) == zn;
  }

  lemma TwoFit(room: int, size: int)
    requires size > 0 && 2 * size <= room
    ensures room / size >= 2
  {
    var q, r := room / size, room % size;
    assert room == q * size + r;
    assert 2 - q >= 1 ==> (2 - q) * size >= size;
  }

  lemma TakeChunkOk(zn: Zone, page: int, zoneSize: int)
    requires zn.Ok(page, zoneSize) && zn.nfree > 0
    ensures zn.uindex + 1 == zn.nmax ==> zn.freechunks != []
    ensures var (z, a) := TakeChunk(zn); z.Ok(page, zoneSize) && a !in zn.Held() && z.Held() == zn.Held() + {a}
  {
    var (z, a) := TakeChunk(zn);
    if zn.uindex + 1 != zn.nmax {
      UsedGrows(zn);
      SameUsed(z, zn.(uindex := zn.uindex + 1));
    } else {
      assert zn.freechunks[0] in zn.freechunks;
      SameUsed(zn, z);
      assert forall b :: b in zn.freechunks <==> b == a || b in z.freechunks;
      assert a !in z.freechunks;
    }
  }

  /** A chunk that was never out is handed out as long as there is one, and then the chunk freed last. */
  lemma FreshFirst(zn: Zone, page: int, zoneSize: int)
    requires zn.Ok(page, zoneSize) && zn.nfree > 0
    ensures |zn.Used()| < zn.nmax ==> TakeChunk(zn).1 !in zn.Used()
    ensures |zn.Used()| == zn.nmax ==> zn.freechunks != [] && forall a :: TakeChunk(PutChunk(zn, a)) == (zn, a)
    ensures |zn.Used()| <= zn.nmax
  {
    UsedSize(zn);
    if zn.uindex + 1 != zn.nmax {
      UsedGrows(zn);
    } else {
      forall a ensures TakeChunk(PutChunk(zn, a)) == (zn, a) {
        assert ([a] + zn.freechunks)[1..] == zn.freechunks;
      }
    }
  }

  lemma SameUsed(a: Zone, b: Zone)
    requires a.base == b.base && a.chunksize == b.chunksize && a.uindex == b.uindex
    ensures a.Used() == b.Used()
  {
    assert forall i :: a.Slot(i) == b.Slot(i);
  }

  lemma PutChunkOk(zn: Zone, page: int, zoneSize: int, a: int)
    requires zn.Ok(page, zoneSize) && a in zn.Held()
    ensures PutChunk(zn, a).Ok(page, zoneSize) && PutChunk(zn, a).Held() == zn.Held() - {a}
  {
    SameUsed(zn, PutChunk(zn, a));
  }

  // ---- Alignment of chunks -----------------------------------------------------------------------------------

  lemma ModShift(x: int, k: int, m: int)
    requires m > 0
    ensures (x + k * m) % m == x % m
  {
    var q, r := x / m, x % m;
    assert x + k * m == (q + k) * m + r;
    ModUnique(x + k * m, q + k, r, m);
  }

  lemma ModUnique(x: int, q: int, r: int, m: int)
    requires m > 0 && x == q * m + r && 0 <= r < m
    ensures x % m == r
  {
    var d := x / m;
    assert x == d * m + x % m;
    assert (q - d) * m == x % m - r;
    assert q - d >= 1 ==> (q - d) * m >= m;
    assert q - d <= -1 ==> (q - d) * m <= -m;
  }

  lemma {:induction false} PowersDivide(n: int, m: int)
    requires PowerOfTwo(n) && PowerOfTwo(m) && n <= m
    ensures m % n == 0
  {
    if n > 1 {
      PowersDivide(n / 2, m / 2);
      var h := n / 2;
      var q := m / 2 / h;
      assert m / 2 == q * h + m / 2 % h;
      assert m == q * n;
      ModShift(0, q, n);
    }
  }

  lemma SlotMod(x: int, q: int, i: int, c: int)
    requires c > 0
    ensures (x + q * c + i * c) % c == x % c
  {
    assert x + q * c + i * c == x + (q + i) * c;
    ModShift(x, q + i, c);
  }

  lemma PageMod(z: int, c: int)
    requires PowerOfTwo(c) && c <= PAGE
    ensures z * PAGE % c == 0
  {
    assert PowerOfTwo(PAGE);
    PowersDivide(c, PAGE);
    Divided(z, PAGE, c);
  }

  lemma Divided(z: int, p: int, c: int)
    requires c > 0 && p % c == 0
    ensures z * p % c == 0
  {
    var k := p / c;
    assert p == k * c;
    assert z * p == (z * k) * c;
    ModShift(0, z * k, c);
  }

  /** Power-of-two chunks are aligned to their size exactly when their zone is; up to a page they always are. */
  lemma ChunkAligned(zn: Zone, z: int, zoneSize: int, a: int)
    requires zn.Ok(z, zoneSize) && a in zn.Used() && PowerOfTwo(zn.chunksize)
    ensures a % zn.chunksize == 0 <==> z * PAGE % zn.chunksize == 0
    ensures zn.chunksize <= PAGE ==> a % zn.chunksize == 0
  {
    hide PowerOfTwo;
    hide Distinct;
    var c, x := zn.chunksize, z * PAGE;
    assert c > 0;
    hide ChunkOf;
    var i :| 0 <= i <= zn.uindex && a == zn.Slot(i);
    var q := (HEADER + c - 1) / c;
    assert zn.base == x + q * c;
    assert a == x + q * c + i * c;
    SlotMod(x, q, i, c);
    if c <= PAGE {
      PageMod(z, c);
    }
  }

  /** Chunk `a` of the zone at page `z`: aligned to a power-of-two size exactly when the zone is, and always up to a page. */
  ghost predicate Aligns(a: int, c: int, z: int) {
    c > 0 && (PowerOfTwo(c) ==> (a % c == 0 <==> z * PAGE % c == 0) && (c <= PAGE ==> a % c == 0))
  }

  lemma UsedAligns(zn: Zone, z: int, zoneSize: int, a: int)
    requires zn.Ok(z, zoneSize) && a in zn.Used()
    ensures Aligns(a, zn.chunksize, z)
  {
    if PowerOfTwo(zn.chunksize) {
      ChunkAligned(zn, z, zoneSize, a);
    }
  }

  /** The powers of two that zones serve are chunk sizes, from 8 on. */
  lemma PowerChunk(n: int)
    requires PowerOfTwo(n) && n < 16384
    ensures ZoneIndex(n).1 == if n < 8 then 8 else n
  {
    PowerCases(n);
  }

  lemma PowerCases(n: int)
    requires PowerOfTwo(n) && n < 16384
    ensures n == 1 || n == 2 || n == 4 || n == 8 || n == 16 || n == 32 || n == 64 || n == 128 || n == 256 || n == 512
      || n == 1024 || n == 2048 || n == 4096 || n == 8192
  {
    var a := n / 2;
    var b := a / 2;
    var c := b / 2;
    var d := c / 2;
    var e := d / 2;
    var f := e / 2;
    var g := f / 2;
    var h := g / 2;
    var i := h / 2;
    var j := i / 2;
    var k := j / 2;
    var l := k / 2;
    var m := l / 2;
    assert m <= 1;
  }

  /** What alignment to the chunk size means for a request. */
  lemma RequestAligned(size: int, a: int, z: int)
    requires PowerOfTwo(size) && size < 16384 && Aligns(a, ZoneIndex(size).1, z)
    ensures size <= PAGE ==> a % size == 0
    ensures size > PAGE ==> (a % size == 0 <==> z * PAGE % size == 0)
  {
    PowerChunk(size);
    hide ZoneIndex;
    if size < 8 {
      EightPower();
      PowerCases(size);
      hide PowerOfTwo;
      EightDivides(a, size);
    } else {
      hide PowerOfTwo;
    }
  }

  lemma EightPower()
    ensures PowerOfTwo(8)
  {
    assert PowerOfTwo(2);
  }

  lemma EightDivides(a: int, size: int)
    requires a % 8 == 0 && (size == 1 || size == 2 || size == 4)
    ensures a % size == 0
  {
    var q := a / 8;
    assert a == 8 * q;
    ModShift(0, if size == 1 then 8 * q else if size == 2 then 4 * q else 2 * q, size);
  }

  /** An odd page is not aligned to any power of two above the page size. */
  lemma OddPage(p: int, size: int)
    requires PowerOfTwo(size) && size > PAGE && p % 2 == 1
    ensures p * PAGE % size != 0
  {
    assert PowerOfTwo(2) && PowerOfTwo(8) && PowerOfTwo(32) && PowerOfTwo(128) && PowerOfTwo(512) && PowerOfTwo(2048);
    assert PowerOfTwo(PAGE) && PowerOfTwo(2 * PAGE);
    PowersDivide(PAGE, size);
    NextPower(size);
    PowersDivide(2 * PAGE, size);
    var j := size / (2 * PAGE);
    assert size == 2 * PAGE * j;
    var q := p * PAGE / size;
    if p * PAGE % size == 0 {
      assert p * PAGE == q * size;
      OddProduct(p, q, j);
    }
  }

  lemma OddProduct(p: int, q: int, j: int)
    requires p % 2 == 1
    ensures p * PAGE != q * (2 * PAGE * j)
  {
    var k := q * j;
    assert q * (2 * PAGE * j) == 2 * PAGE * k;
  }

  /** The power of two after the page size is twice the page size. */
  lemma NextPower(size: int)
    requires PowerOfTwo(size) && size > PAGE
    ensures size >= 2 * PAGE
  {
    if size < 16384 {
      PowerCases(size);
    }
  }

  // ---- All zones and large blocks --------------------------------------------------------------------------

  /** What a page taken from the page allocator is for. */
  datatype Owner = Table | InZone(z: int) | InLarge(b: int)

  /** Zone headers by page number, the retired zones, the page counts of large blocks, and who owns each page. */
  datatype View = View(zones: map<int, Zone>, free: seq<int>, large: map<int, int>, owner: map<int, Owner>) {

    ghost predicate Active(z: int) { z in zones && z !in free }

    /** Zones and large blocks own exactly the pages taken, each page once. */
    ghost predicate Owned(cnt: int, held: set<int>) {
      && owner.Keys == held
      && (forall z :: z in zones ==> Owns(z, cnt, InZone(z)))
      && (forall b :: b in large ==> 0 < large[b] && Owns(b, large[b], InLarge(b)))
      && (forall p :: p in owner ==> Homed(p, owner[p], cnt))
    }

    ghost predicate Homed(p: int, o: Owner, cnt: int) {
      match o
      case Table => true
      case InZone(z) => z in zones && Within(p, z, cnt)
      case InLarge(b) => b in large && Within(p, b, large[b])
    }

    ghost predicate Owns(p: int, n: int, o: Owner) {
      forall q :: Within(q, p, n) ==> q in owner && owner[q] == o
    }

    ghost predicate ZonesOk(zoneSize: int) {
      && (forall z :: Active(z) ==> zones[z].Ok(z, zoneSize))
      && Distinct(free) && forall z <- free :: z in zones
    }

    /** An allocation the callers have not given back starts at byte `a`. */
    ghost predicate Live(a: int) {
      var p := a / PAGE;
      p in owner && match owner[p]
      case Table => false
      case InZone(z) => Active(z) && a in zones[z].Held()
      case InLarge(b) => b in large && a == b * PAGE
    }

    ghost function Len(a: int): int
      requires Live(a)
    {
      match owner[a / PAGE]
      case InZone(z) => zones[z].chunksize
      case InLarge(b) => large[b] * PAGE
    }
  }

  /** One more allocation. */
  ghost predicate Gains(v: View, w: View, r: int, len: int) {
    && !v.Live(r) && w.Live(r) && w.Len(r) == len
    && forall a :: a != r ==> (v.Live(a) <==> w.Live(a)) && (v.Live(a) ==> v.Len(a) == w.Len(a))
  }

  ghost predicate Same(v: View, w: View) {
    forall a :: (v.Live(a) <==> w.Live(a)) && (v.Live(a) ==> v.Len(a) == w.Len(a))
  }

  /** A used chunk's page belongs to its zone. */
  lemma ChunkPage(zn: Zone, z: int, cnt: int, a: int)
    requires zn.Ok(z, cnt * PAGE) && a in zn.Used()
    ensures Within(a / PAGE, z, cnt)
  {
    UsedInside(zn, z, cnt * PAGE, a);
  }

  /** Any two allocations are apart. */
  lemma LiveApart(v: View, cnt: int, held: set<int>, a: int, b: int)
    requires v.Owned(cnt, held) && v.ZonesOk(cnt * PAGE) && v.Live(a) && v.Live(b) && a < b
    ensures a + v.Len(a) <= b
  {
    var p, q := a / PAGE, b / PAGE;
    match v.owner[p] {
      case InZone(z) =>
        UsedInside(v.zones[z], z, cnt * PAGE, a);
        if v.owner[q] == InZone(z) {
          UsedApart(v.zones[z], a, b);
        } else {
          assert Within(p, z, cnt);
          assert !Within(q, z, cnt);
        }
      case InLarge(x) =>
        assert v.Owns(x, v.large[x], InLarge(x));
        assert Within(p, x, v.large[x]);
        if v.owner[q] != InLarge(x) {
          assert !Within(q, x, v.large[x]);
        }
    }
  }

  /** Every allocation lies on pages taken from the page allocator. */
  lemma LiveInside(v: View, cnt: int, held: set<int>, a: int, x: int)
    requires v.Owned(cnt, held) && v.ZonesOk(cnt * PAGE) && v.Live(a) && a <= x < a + v.Len(a)
    ensures x / PAGE in held && v.owner[x / PAGE] == v.owner[a / PAGE]
  {
    match v.owner[a / PAGE] {
      case InZone(z) =>
        UsedInside(v.zones[z], z, cnt * PAGE, a);
        assert Within(x / PAGE, z, cnt);
      case InLarge(b) =>
        assert Within(x / PAGE, b, v.large[b]);
    }
  }

  /** A zone's header changes with its chunks. */
  lemma HeaderChanges(v: View, cnt: int, held: set<int>, z: int, zn: Zone, r: int)
    requires v.Owned(cnt, held) && v.ZonesOk(cnt * PAGE) && v.Active(z) && zn.Ok(z, cnt * PAGE)
    requires zn.chunksize == v.zones[z].chunksize
    ensures var w := v.(zones := v.zones[z := zn]);
      && w.Owned(cnt, held) && w.ZonesOk(cnt * PAGE)
      && (r !in v.zones[z].Held() && zn.Held() == v.zones[z].Held() + {r} ==> Gains(v, w, r, zn.chunksize))
      && (r in v.zones[z].Held() && zn.Held() == v.zones[z].Held() - {r} ==> Gains(w, v, r, zn.chunksize))
  {
    var w := v.(zones := v.zones[z := zn]);
    forall a | a in zn.Held() || a in v.zones[z].Held()
      ensures a / PAGE in v.owner && v.owner[a / PAGE] == InZone(z)
    {
      ChunkPage(if a in zn.Held() then zn else v.zones[z], z, cnt, a);
      assert v.Owns(z, cnt, InZone(z));
    }
    assert w.owner == v.owner && w.large == v.large;
    assert forall q :: w.Active(q) <==> v.Active(q);
    assert forall p, n, o :: w.Owns(p, n, o) <==> v.Owns(p, n, o);
  }

  ghost function Assign(owner: map<int, Owner>, p: int, n: int, o: Owner): map<int, Owner> {
    map q | q in owner.Keys + Interval(p, n) :: if Within(q, p, n) then o else owner[q]
  }

  ghost function Unassign(owner: map<int, Owner>, p: int, n: int): map<int, Owner> {
    map q | q in owner.Keys && !Within(q, p, n) :: owner[q]
  }

  /** Pages fresh from the page allocator become a zone with one chunk out. */
  ghost function AddZone(v: View, cnt: int, z: int, zn: Zone): View {
    v.(zones := v.zones[z := zn], owner := Assign(v.owner, z, cnt, InZone(z)))
  }

  lemma AddZoneKeeps(v: View, cnt: int, held: set<int>, z: int, zn: Zone)
    requires v.Owned(cnt, held) && v.ZonesOk(cnt * PAGE) && cnt > 0
    requires Interval(z, cnt) !! held && zn.Ok(z, cnt * PAGE) && zn.Held() == {zn.base}
    ensures var w := AddZone(v, cnt, z, zn);
      && w.Owned(cnt, held + Interval(z, cnt)) && w.ZonesOk(cnt * PAGE) && !v.Active(z) && w.Active(z)
      && Gains(v, w, zn.base, zn.chunksize)
  {
    var w := AddZone(v, cnt, z, zn);
    assert Within(z, z, cnt) && z in Interval(z, cnt);
    assert z !in v.zones by {
      assert z in v.zones ==> v.Owns(z, cnt, InZone(z));
    }
    assert w.Owned(cnt, held + Interval(z, cnt)) by {
      forall y | y in w.zones ensures w.Owns(y, cnt, InZone(y)) {
        assert y != z ==> v.Owns(y, cnt, InZone(y));
      }
      forall b | b in w.large ensures 0 < w.large[b] && w.Owns(b, w.large[b], InLarge(b)) {
        assert v.Owns(b, v.large[b], InLarge(b));
      }
    }
    ChunkPage(zn, z, cnt, zn.base);
    assert forall y :: w.Active(y) <==> v.Active(y) || y == z;
    forall a | a / PAGE in v.owner
      ensures v.Live(a) <==> w.Live(a)
    {
      assert v.Homed(a / PAGE, v.owner[a / PAGE], cnt);
    }
    forall a | a / PAGE !in v.owner
      ensures !v.Live(a) && (w.Live(a) <==> a == zn.base)
    {
    }
  }

  /** A retired zone is set up again. */
  lemma ReuseKeeps(v: View, cnt: int, held: set<int>, zn: Zone)
    requires v.Owned(cnt, held) && v.ZonesOk(cnt * PAGE) && v.free != []
    requires zn.Ok(v.free[0], cnt * PAGE) && zn.Held() == {zn.base}
    ensures var w := v.(free := v.free[1..], zones := v.zones[v.free[0] := zn]);
      && w.Owned(cnt, held) && w.ZonesOk(cnt * PAGE)
      && Gains(v, w, zn.base, zn.chunksize)
  {
    var z := v.free[0];
    var w := v.(free := v.free[1..], zones := v.zones[z := zn]);
    ChunkPage(zn, z, cnt, zn.base);
    assert v.Owns(z, cnt, InZone(z));
    assert forall y :: y in v.free <==> y == z || y in w.free;
    assert z !in w.free;
    assert forall y :: w.Active(y) <==> v.Active(y) || y == z;
    assert forall p, n, o :: w.Owns(p, n, o) <==> v.Owns(p, n, o);
  }

  /** A zone with nothing out is retired. */
  lemma RetireKeeps(v: View, cnt: int, held: set<int>, z: int)
    requires v.Owned(cnt, held) && v.ZonesOk(cnt * PAGE) && v.Active(z) && v.zones[z].Held() == {}
    ensures var w := v.(free := [z] + v.free); w.Owned(cnt, held) && w.ZonesOk(cnt * PAGE) && Same(v, w)
  {
    var w := v.(free := [z] + v.free);
    assert forall y :: y in w.free <==> y == z || y in v.free;
    assert forall y :: w.Active(y) <==> v.Active(y) && y != z;
    assert forall p, n, o :: w.Owns(p, n, o) <==> v.Owns(p, n, o);
  }

  /** The first retired zone gives its pages back. */
  ghost function DropZone(v: View, cnt: int): View
    requires v.free != []
  {
    v.(free := v.free[1..], zones := v.zones - {v.free[0]}, owner := Unassign(v.owner, v.free[0], cnt))
  }

  lemma DropZoneKeeps(v: View, cnt: int, held: set<int>)
    requires v.Owned(cnt, held) && v.ZonesOk(cnt * PAGE) && v.free != []
    ensures var w := DropZone(v, cnt);
      w.Owned(cnt, held - Interval(v.free[0], cnt)) && w.ZonesOk(cnt * PAGE) && Same(v, w) && Interval(v.free[0], cnt) <= held
  {
    var z, w := v.free[0], DropZone(v, cnt);
    assert forall y :: y in v.free <==> y == z || y in w.free;
    assert z !in w.free;
    assert v.Owns(z, cnt, InZone(z));
    assert forall p :: p in Interval(z, cnt) <==> Within(p, z, cnt);
    assert w.Owned(cnt, held - Interval(z, cnt)) by {
      forall y | y in w.zones ensures w.Owns(y, cnt, InZone(y)) {
        assert v.Owns(y, cnt, InZone(y));
      }
      forall b | b in w.large ensures 0 < w.large[b] && w.Owns(b, w.large[b], InLarge(b)) {
        assert v.Owns(b, v.large[b], InLarge(b));
      }
      forall p | p in w.owner ensures w.Homed(p, w.owner[p], cnt) {
        assert v.Homed(p, v.owner[p], cnt);
      }
    }
    assert forall y :: w.Active(y) <==> v.Active(y);
    forall a ensures v.Live(a) <==> w.Live(a) {
    }
  }

  ghost function AddLarge(v: View, b: int, n: int): View {
    v.(large := v.large[b := n], owner := Assign(v.owner, b, n, InLarge(b)))
  }

  lemma AddLargeKeeps(v: View, cnt: int, held: set<int>, b: int, n: int)
    requires v.Owned(cnt, held) && v.ZonesOk(cnt * PAGE) && n > 0 && Interval(b, n) !! held
    ensures var w := AddLarge(v, b, n);
      w.Owned(cnt, held + Interval(b, n)) && w.ZonesOk(cnt * PAGE) && Gains(v, w, b * PAGE, n * PAGE)
  {
    var w := AddLarge(v, b, n);
    assert Within(b, b, n) && b in Interval(b, n);
    assert b !in v.large by {
      assert b in v.large ==> v.Owns(b, v.large[b], InLarge(b));
      assert b in v.large ==> Within(b, b, v.large[b]);
    }
    assert w.Owned(cnt, held + Interval(b, n)) by {
      forall y | y in w.zones ensures w.Owns(y, cnt, InZone(y)) {
        assert v.Owns(y, cnt, InZone(y));
      }
      forall c | c in w.large ensures 0 < w.large[c] && w.Owns(c, w.large[c], InLarge(c)) {
        assert c != b ==> v.Owns(c, v.large[c], InLarge(c));
      }
      forall p | p in w.owner ensures w.Homed(p, w.owner[p], cnt) {
        assert p in v.owner ==> v.Homed(p, v.owner[p], cnt);
      }
    }
    assert forall y :: w.Active(y) <==> v.Active(y);
    forall a | a / PAGE in v.owner
      ensures v.Live(a) <==> w.Live(a)
    {
      assert v.Homed(a / PAGE, v.owner[a / PAGE], cnt);
    }
    forall a | a / PAGE !in v.owner
      ensures !v.Live(a) && (w.Live(a) <==> a == b * PAGE)
    {
    }
  }

  ghost function DropLarge(v: View, b: int): View
    requires b in v.large
  {
    v.(large := v.large - {b}, owner := Unassign(v.owner, b, v.large[b]))
  }

  lemma DropLargeKeeps(v: View, cnt: int, held: set<int>, b: int)
    requires v.Owned(cnt, held) && v.ZonesOk(cnt * PAGE) && b in v.large
    ensures var w := DropLarge(v, b); var i := Interval(b, v.large[b]);
      w.Owned(cnt, held - i) && w.ZonesOk(cnt * PAGE) && i <= held && Gains(w, v, b * PAGE, v.large[b] * PAGE)
  {
    var n, w := v.large[b], DropLarge(v, b);
    assert v.Owns(b, n, InLarge(b));
    assert Within(b, b, n);
    assert forall p :: p in Interval(b, n) <==> Within(p, b, n);
    assert w.Owned(cnt, held - Interval(b, n)) by {
      forall y | y in w.zones ensures w.Owns(y, cnt, InZone(y)) {
        assert v.Owns(y, cnt, InZone(y));
      }
      forall c | c in w.large ensures 0 < w.large[c] && w.Owns(c, w.large[c], InLarge(c)) {
        assert v.Owns(c, v.large[c], InLarge(c));
      }
      forall p | p in w.owner ensures w.Homed(p, w.owner[p], cnt) {
        assert v.Homed(p, v.owner[p], cnt);
      }
    }
    assert forall y :: w.Active(y) <==> v.Active(y);
    forall a | a != b * PAGE
      ensures v.Live(a) <==> w.Live(a)
    {
    }
  }

  // ---- The page table and the zone lists ---------------------------------------------------------------------

  datatype Kind = FreePage | SmallPage | LargePage
  datatype Usage = Usage(kind: Kind, size: int)

  /** Every page of a zone tells its distance from the zone; the first page of a large block tells its size. */
  ghost predicate Marked(v: View, usage: map<int, Usage>, cnt: int) {
    && (forall z :: z in v.zones ==> ZoneMarked(usage, z, cnt))
    && (forall b :: b in v.large ==> b in usage && usage[b] == Usage(LargePage, v.large[b]))
  }

  ghost predicate ZoneMarked(usage: map<int, Usage>, z: int, cnt: int) {
    forall p :: Within(p, z, cnt) ==> p in usage && usage[p] == Usage(SmallPage, p - z)
  }

  /** The page table leads from any allocation back to its zone or its page count. */
  lemma LeadsBack(v: View, usage: map<int, Usage>, cnt: int, held: set<int>, a: int)
    requires v.Owned(cnt, held) && v.ZonesOk(cnt * PAGE) && Marked(v, usage, cnt) && v.Live(a)
    ensures a / PAGE in usage
    ensures usage[a / PAGE].kind == LargePage ==> v.owner[a / PAGE] == InLarge(a / PAGE) && usage[a / PAGE].size * PAGE == v.Len(a)
    ensures usage[a / PAGE].kind != LargePage ==>
      && v.owner[a / PAGE] == InZone(a / PAGE - usage[a / PAGE].size)
      && v.Active(a / PAGE - usage[a / PAGE].size)
  {
    match v.owner[a / PAGE] {
      case InZone(z) =>
        assert ZoneMarked(usage, z, cnt);
        assert v.Homed(a / PAGE, InZone(z), cnt);
      case InLarge(b) =>
        assert b == a / PAGE;
    }
  }

  /** Writing the table elsewhere. */
  lemma MarkedElsewhere(v: View, w: View, cnt: int, held: set<int>, usage: map<int, Usage>, usage': map<int, Usage>)
    requires Marked(v, usage, cnt) && w.Owned(cnt, held)
    requires w.zones.Keys <= v.zones.Keys && forall b :: b in w.large ==> b in v.large && w.large[b] == v.large[b]
    requires forall p :: p in held && p in usage ==> p in usage' && usage'[p] == usage[p]
    ensures Marked(w, usage', cnt)
  {
    forall z | z in w.zones ensures ZoneMarked(usage', z, cnt) {
      assert ZoneMarked(usage, z, cnt);
      assert w.Owns(z, cnt, InZone(z));
    }
    forall b | b in w.large ensures b in usage' && usage'[b] == Usage(LargePage, w.large[b]) {
      assert w.Owns(b, w.large[b], InLarge(b));
      assert Within(b, b, w.large[b]);
    }
  }

  ghost predicate OnList(v: View, z: int, zi: int) {
    v.Active(z) && v.zones[z].zoneindex == zi && v.zones[z].nfree > 0
  }

  ghost predicate ListedAt(v: View, list: seq<int>, zi: int) {
    Distinct(list) && forall z :: z in list <==> OnList(v, z, zi)
  }

  /** `zone_array[zi]` lists exactly the active zones of index `zi` with a free chunk, each once. */
  ghost predicate Listed(v: View, lists: seq<seq<int>>) {
    |lists| == ZONES && forall zi :: 0 <= zi < ZONES ==> ListedAt(v, lists[zi], zi)
  }

  lemma ListUpdated(v: View, w: View, lists: seq<seq<int>>, zi: int, list: seq<int>)
    requires Listed(v, lists) && 0 <= zi < ZONES && ListedAt(w, list, zi)
    requires forall k, z :: k != zi ==> (OnList(v, z, k) <==> OnList(w, z, k))
    ensures Listed(w, lists[zi := list])
  {
    var lists' := lists[zi := list];
    forall k | 0 <= k < ZONES ensures ListedAt(w, lists'[k], k) {
      assert ListedAt(v, lists[k], k);
    }
  }

  lemma Pushed(v: View, w: View, lists: seq<seq<int>>, zi: int, z: int)
    requires Listed(v, lists) && 0 <= zi < ZONES && !OnList(v, z, zi) && OnList(w, z, zi)
    requires forall k, y :: k != zi || y != z ==> (OnList(v, y, k) <==> OnList(w, y, k))
    ensures Listed(w, lists[zi := [z] + lists[zi]])
  {
    var list := [z] + lists[zi];
    assert ListedAt(v, lists[zi], zi);
    assert forall y :: y in list <==> y == z || y in lists[zi];
    ListUpdated(v, w, lists, zi, list);
  }

  lemma Unlisted(v: View, w: View, lists: seq<seq<int>>, zi: int, i: int)
    requires Listed(v, lists) && 0 <= zi < ZONES && 0 <= i < |lists[zi]| && !OnList(w, lists[zi][i], zi)
    requires forall k, y :: k != zi || y != lists[zi][i] ==> (OnList(v, y, k) <==> OnList(w, y, k))
    ensures Listed(w, lists[zi := lists[zi][..i] + lists[zi][i + 1..]])
  {
    var old_, z := lists[zi], lists[zi][i];
    var list := old_[..i] + old_[i + 1..];
    assert ListedAt(v, old_, zi);
    forall y ensures y in list <==> y in old_ && y != z {
      if y in old_ && y != z {
        var k :| 0 <= k < |old_| && old_[k] == y;
        assert y == list[if k < i then k else k - 1];
      }
    }
    ListUpdated(v, w, lists, zi, list);
  }

  // ---- The allocator ---------------------------------------------------------------------------------------------

  datatype Pointer = Nil | At(a: int)

  /** A stretch of `n` free pages. */
  ghost predicate HasRun(free: set<int>, n: int) {
    exists p :: Interval(p, n) <= free
  }

  /** The lowest place where `n` free pages lie together. */
  ghost predicate LowestRun(free: set<int>, n: int, p: int) {
    Interval(p, n) <= free && forall at :: Interval(at, n) <= free ==> p <= at
  }

  ghost predicate Configured(zoneSize: int, zoneLimit: int, cnt: int) {
    && (zoneSize == 32768 || zoneSize == 65536 || zoneSize == 131072)
    && zoneLimit == (if zoneSize / 4 > 16384 then 16384 else zoneSize / 4)
    && zoneSize == cnt * PAGE && cnt > 0
  }

  /** Three chunks and the header fit every zone, so a new zone has at least two chunks. */
  lemma ZoneHoldsTwo(zoneSize: int, zoneLimit: int, cnt: int, size: int)
    requires Configured(zoneSize, zoneLimit, cnt) && 0 < size < zoneLimit
    ensures 3 * ZoneIndex(size).1 + HEADER <= zoneSize
  {
    ZoneIndexRounds(size);
  }

  /** The whole invariant of the zone allocator. */
  ghost predicate Good(v: View, cnt: int, held: set<int>, usage: map<int, Usage>, lists: seq<seq<int>>) {
    v.Owned(cnt, held) && v.ZonesOk(cnt * PAGE) && Marked(v, usage, cnt) && Listed(v, lists)
  }

  lemma GoodStart(cnt: int, held: set<int>, owner: map<int, Owner>, lists: seq<seq<int>>)
    requires owner.Keys == held && (forall p <- held :: owner[p] == Table)
    requires |lists| == ZONES && forall k :: 0 <= k < ZONES ==> lists[k] == []
    ensures var v := View(map[], [], map[], owner);
      Good(v, cnt, held, map[], lists) && forall a :: !v.Live(a)
  {
  }

  lemma GoodLarge(v: View, cnt: int, held: set<int>, usage: map<int, Usage>, lists: seq<seq<int>>, b: int, n: int)
    requires Good(v, cnt, held, usage, lists) && n > 0 && Interval(b, n) !! held
    ensures var w := AddLarge(v, b, n);
      && Good(w, cnt, held + Interval(b, n), usage[b := Usage(LargePage, n)], lists)
      && Gains(v, w, b * PAGE, n * PAGE)
  {
    var w := AddLarge(v, b, n);
    AddLargeKeeps(v, cnt, held, b, n);
    assert b !in held by {
      assert b in Interval(b, n);
    }
    MarkedElsewhere(v, v, cnt, held, usage, usage[b := Usage(LargePage, n)]);
    SameLists(v, w, lists);
  }

  lemma GoodUnlarge(v: View, cnt: int, held: set<int>, usage: map<int, Usage>, lists: seq<seq<int>>, b: int)
    requires Good(v, cnt, held, usage, lists) && b in v.large
    ensures var w := DropLarge(v, b); var i := Interval(b, v.large[b]);
      && Good(w, cnt, held - i, usage[b := Usage(LargePage, 0)], lists)
      && Gains(w, v, b * PAGE, v.large[b] * PAGE) && i <= held && 0 < v.large[b]
  {
    var w := DropLarge(v, b);
    DropLargeKeeps(v, cnt, held, b);
    assert b in Interval(b, v.large[b]);
    MarkedElsewhere(v, w, cnt, held - Interval(b, v.large[b]), usage, usage[b := Usage(LargePage, 0)]);
    SameLists(v, w, lists);
  }

  lemma SameLists(v: View, w: View, lists: seq<seq<int>>)
    requires Listed(v, lists) && forall z, zi :: OnList(v, z, zi) <==> OnList(w, z, zi)
    ensures Listed(w, lists)
  {
    forall k | 0 <= k < ZONES ensures ListedAt(w, lists[k], k) {
      assert ListedAt(v, lists[k], k);
    }
  }

  /** A listed zone gives a chunk and leaves the list with its last one. */
  lemma GoodTake(v: View, cnt: int, held: set<int>, usage: map<int, Usage>, lists: seq<seq<int>>, zi: int)
    requires Good(v, cnt, held, usage, lists) && 0 <= zi < ZONES && lists[zi] != []
    ensures var z := lists[zi][0];
      && v.Active(z) && v.zones[z].nfree > 0 && v.zones[z].chunksize == ChunkOf(zi)
      && (v.zones[z].uindex + 1 == v.zones[z].nmax ==> v.zones[z].freechunks != [])
      && var (zn, a) := TakeChunk(v.zones[z]);
      var w := v.(zones := v.zones[z := zn]);
      && Good(w, cnt, held, usage, if zn.nfree == 0 then lists[zi := lists[zi][1..]] else lists)
      && Gains(v, w, a, ChunkOf(zi)) && Aligns(a, ChunkOf(zi), z)
  {
    var z := lists[zi][0];
    assert ListedAt(v, lists[zi], zi);
    assert z in lists[zi] && OnList(v, z, zi);
    TakeChunkOk(v.zones[z], z, cnt * PAGE);
    var (zn, a) := TakeChunk(v.zones[z]);
    var w := v.(zones := v.zones[z := zn]);
    HeaderChanges(v, cnt, held, z, zn, a);
    UsedAligns(zn, z, cnt * PAGE, a);
    hide Aligns;
    assert Marked(w, usage, cnt) by {
      MarkedElsewhere(v, w, cnt, held, usage, usage);
    }
    assert forall y :: w.Active(y) <==> v.Active(y);
    if zn.nfree == 0 {
      Unlisted(v, w, lists, zi, 0);
      assert lists[zi][..0] + lists[zi][1..] == lists[zi][1..];
    } else {
      SameLists(v, w, lists);
    }
  }

  /** Which chunk a listed zone gives. */
  ghost predicate FromZone(zn: Zone, a: int) {
    if |zn.Used()| < zn.nmax then a !in zn.Used() else zn.freechunks != [] && a == zn.freechunks[0]
  }

  lemma GoodFrom(v: View, cnt: int, held: set<int>, usage: map<int, Usage>, lists: seq<seq<int>>, zi: int)
    requires Good(v, cnt, held, usage, lists) && 0 <= zi < ZONES && lists[zi] != []
    ensures var z := lists[zi][0];
      && v.Active(z) && (v.zones[z].uindex + 1 == v.zones[z].nmax ==> v.zones[z].freechunks != [])
      && FromZone(v.zones[z], TakeChunk(v.zones[z]).1)
  {
    var z := lists[zi][0];
    assert ListedAt(v, lists[zi], zi);
    assert z in lists[zi] && OnList(v, z, zi);
    FreshFirst(v.zones[z], z, cnt * PAGE);
    UsedSize(v.zones[z]);
  }

  lemma NewAligns(page: int, zi: int, zoneSize: int)
    requires 0 <= zi < ZONES && 3 * ChunkOf(zi) + HEADER <= zoneSize
    ensures Aligns(NewZone(page, zi, ChunkOf(zi), zoneSize).base, ChunkOf(zi), page)
  {
    NewZoneOk(page, zi, zoneSize);
    var zn := NewZone(page, zi, ChunkOf(zi), zoneSize);
    assert zn.base in zn.Held();
    UsedAligns(zn, page, zoneSize, zn.base);
  }

  /** A new zone, on fresh pages with their table entries written. */
  lemma GoodAdd(v: View, cnt: int, held: set<int>, usage: map<int, Usage>, usage': map<int, Usage>, lists: seq<seq<int>>, zi: int, z: int)
    requires Good(v, cnt, held, usage, lists) && 0 <= zi < ZONES && cnt > 0
    requires Interval(z, cnt) !! held && 3 * ChunkOf(zi) + HEADER <= cnt * PAGE
    requires ZoneMarked(usage', z, cnt) && forall p :: p in usage && !Within(p, z, cnt) ==> p in usage' && usage'[p] == usage[p]
    ensures var zn := NewZone(z, zi, ChunkOf(zi), cnt * PAGE);
      var w := AddZone(v, cnt, z, zn);
      && Good(w, cnt, held + Interval(z, cnt), usage', lists[zi := [z] + lists[zi]])
      && Gains(v, w, zn.base, ChunkOf(zi)) && Aligns(zn.base, ChunkOf(zi), z)
  {
    NewZoneOk(z, zi, cnt * PAGE);
    NewAligns(z, zi, cnt * PAGE);
    hide Aligns;
    var zn := NewZone(z, zi, ChunkOf(zi), cnt * PAGE);
    var w := AddZone(v, cnt, z, zn);
    AddZoneKeeps(v, cnt, held, z, zn);
    assert forall p :: p in Interval(z, cnt) <==> Within(p, z, cnt);
    MarkedElsewhere(v, v, cnt, held, usage, usage');
    Pushed(v, w, lists, zi, z);
  }

  /** A retired zone put to use again, perhaps with another chunk size. */
  lemma GoodReuse(v: View, cnt: int, held: set<int>, usage: map<int, Usage>, lists: seq<seq<int>>, zi: int)
    requires Good(v, cnt, held, usage, lists) && 0 <= zi < ZONES && v.free != []
    requires 3 * ChunkOf(zi) + HEADER <= cnt * PAGE
    ensures var z := v.free[0];
      var zn := NewZone(z, zi, ChunkOf(zi), cnt * PAGE);
      var w := v.(free := v.free[1..], zones := v.zones[z := zn]);
      && Good(w, cnt, held, usage, lists[zi := [z] + lists[zi]])
      && Gains(v, w, zn.base, ChunkOf(zi)) && Aligns(zn.base, ChunkOf(zi), z)
  {
    var z := v.free[0];
    NewZoneOk(z, zi, cnt * PAGE);
    NewAligns(z, zi, cnt * PAGE);
    hide Aligns;
    var zn := NewZone(z, zi, ChunkOf(zi), cnt * PAGE);
    var w := v.(free := v.free[1..], zones := v.zones[z := zn]);
    ReuseKeeps(v, cnt, held, zn);
    MarkedElsewhere(v, w, cnt, held, usage, usage);
    assert forall y :: y in v.free <==> y == z || y in w.free;
    assert z !in w.free;
    Pushed(v, w, lists, zi, z);
  }

  /** A chunk comes back; a zone that had none is listed again. */
  lemma GoodPut(v: View, cnt: int, held: set<int>, usage: map<int, Usage>, lists: seq<seq<int>>, z: int, a: int)
    requires Good(v, cnt, held, usage, lists) && v.Active(z) && a in v.zones[z].Held()
    ensures var zi := v.zones[z].zoneindex;
      var zn := PutChunk(v.zones[z], a);
      var w := v.(zones := v.zones[z := zn]);
      && 0 <= zi < ZONES
      && Good(w, cnt, held, usage, if v.zones[z].nfree == 0 then lists[zi := [z] + lists[zi]] else lists)
      && Gains(w, v, a, v.zones[z].chunksize) && OnList(w, z, zi)
  {
    var zi := v.zones[z].zoneindex;
    var zn := PutChunk(v.zones[z], a);
    var w := v.(zones := v.zones[z := zn]);
    assert v.zones[z].Ok(z, cnt * PAGE);
    PutChunkOk(v.zones[z], z, cnt * PAGE, a);
    HeaderChanges(v, cnt, held, z, zn, a);
    MarkedElsewhere(v, w, cnt, held, usage, usage);
    assert forall y :: w.Active(y) <==> v.Active(y);
    if v.zones[z].nfree == 0 {
      Pushed(v, w, lists, zi, z);
    } else {
      SameLists(v, w, lists);
    }
  }

  lemma GoodRetire(v: View, cnt: int, held: set<int>, usage: map<int, Usage>, lists: seq<seq<int>>, zi: int, i: int)
    requires Good(v, cnt, held, usage, lists) && 0 <= zi < ZONES && 0 <= i < |lists[zi]|
    requires lists[zi][i] in v.zones && v.zones[lists[zi][i]].nfree == v.zones[lists[zi][i]].nmax
    ensures var w := v.(free := [lists[zi][i]] + v.free);
      && Good(w, cnt, held, usage, lists[zi := lists[zi][..i] + lists[zi][i + 1..]])
      && Same(v, w)
  {
    var z := lists[zi][i];
    var w := v.(free := [z] + v.free);
    assert ListedAt(v, lists[zi], zi) && z in lists[zi] && OnList(v, z, zi);
    HeldSize(v.zones[z], z, cnt * PAGE);
    RetireKeeps(v, cnt, held, z);
    MarkedElsewhere(v, w, cnt, held, usage, usage);
    assert forall y :: y in w.free <==> y == z || y in v.free;
    Unlisted(v, w, lists, zi, i);
  }

  lemma GoodDrop(v: View, cnt: int, held: set<int>, usage: map<int, Usage>, usage': map<int, Usage>, lists: seq<seq<int>>)
    requires Good(v, cnt, held, usage, lists) && v.free != []
    requires forall p :: p in usage && !Within(p, v.free[0], cnt) ==> p in usage' && usage'[p] == usage[p]
    ensures var w := DropZone(v, cnt);
      && Good(w, cnt, held - Interval(v.free[0], cnt), usage', lists)
      && Same(v, w) && Interval(v.free[0], cnt) <= held
  {
    var z, w := v.free[0], DropZone(v, cnt);
    DropZoneKeeps(v, cnt, held);
    assert forall p :: p in Interval(z, cnt) <==> Within(p, z, cnt);
    MarkedElsewhere(v, w, cnt, held - Interval(z, cnt), usage, usage');
    assert forall y :: y in v.free <==> y == z || y in w.free;
    assert z !in w.free;
    SameLists(v, w, lists);
  }

  /** An active zone with a chunk out, and its list when it is listed. */
  lemma GoodOut(v: View, cnt: int, held: set<int>, usage: map<int, Usage>, lists: seq<seq<int>>, z: int, a: int)
    requires Good(v, cnt, held, usage, lists) && v.Active(z) && a in v.zones[z].Held()
    ensures var zn := v.zones[z]; zn.nfree < zn.nmax && 2 <= zn.nmax && 0 <= zn.zoneindex < |lists|
    ensures var list := lists[v.zones[z].zoneindex]; v.zones[z].nfree > 0 ==>
      && list != [] && ((forall y <- list :: y == z) <==> list[0] == z && |list| <= 1)
  {
    var list := lists[v.zones[z].zoneindex];
    HeldSize(v.zones[z], z, cnt * PAGE);
    assert ListedAt(v, list, v.zones[z].zoneindex);
    if v.zones[z].nfree > 0 {
      assert z in list by { assert OnList(v, z, v.zones[z].zoneindex); }
      if |list| > 1 {
        assert list[0] in list && list[1] in list && list[0] != list[1];
      }
    }
  }

  lemma GainsSame(v: View, w: View, x: View, r: int, len: int)
    requires Gains(w, v, r, len) && Same(w, x)
    ensures Gains(x, v, r, len)
  {
  }

  lemma SameTwice(v: View, w: View, x: View)
    requires Same(v, w) && Same(w, x)
    ensures Same(v, x)
  {
  }

  lemma GoodListed(v: View, cnt: int, held: set<int>, usage: map<int, Usage>, lists: seq<seq<int>>, z: int, zi: int)
    requires Good(v, cnt, held, usage, lists) && 0 <= zi < ZONES && OnList(v, z, zi)
    ensures z in lists[zi]
  {
    assert ListedAt(v, lists[zi], zi);
  }

  /** Doubled from 32K up to 128K while twice the size stays below a 1024th of the memory. */
  method ZoneSizeFor(limsize: nat) returns (size: int)
    ensures size == 32768 || size == 65536 || size == 131072
    ensures size == 131072 || limsize / 1024 <= size * 2
    ensures size == 32768 || size < limsize / 1024
  {
    size := 32768;
    while size < 131072 && size * 2 < limsize / 1024
      invariant size == 32768 || size == 65536 || size == 131072
      invariant size == 32768 || size < limsize / 1024
      decreases 131072 - size
    {
      size := size * 2;
    }
  }

  lemma GoodDistinct(v: View, cnt: int, held: set<int>, usage: map<int, Usage>, lists: seq<seq<int>>, zi: int)
    requires Good(v, cnt, held, usage, lists) && 0 <= zi < ZONES
    ensures Distinct(lists[zi])
  {
    assert ListedAt(v, lists[zi], zi);
  }

  /** The page table takes four bytes a page, in whole pages. */
  function TablePages(npages: nat): nat {
    (4 * npages + PAGE - 1) / PAGE
  }

  lemma TableFits(runs: seq<Run>, start: int, npages: nat, n: int)
    requires npages > 0 && runs == [Run(start, npages)] && n == RoundUp(npages * 4, PAGE) / PAGE
    ensures 0 < n <= npages && n == TablePages(npages) && Interval(start, n) <= Pages(runs)
  {
    assert Interval(start, n) <= Interval(start, npages);
  }

  /** The page table takes the first pages. */
  lemma TableFirst(start: int, npages: nat, n: int, p: int)
    requires 0 < n <= npages && LowestRun(Pages([Run(start, npages)]), n, p)
    ensures p == start && Pages([Run(start, npages)]) - Interval(p, n) == Interval(start + n, npages - n)
  {
    var one := [Run(start, npages)];
    assert one[1..] == [] && Pages(one) == Interval(start, npages);
    assert Interval(start, n) <= Interval(start, npages);
    assert p in Interval(p, n);
  }

  class Allocator {
    const pages: PageAllocator
    const zoneSize: int
    const zoneLimit: int
    const zonePageCnt: int
    var zones: map<int, Zone>
    var zoneArray: seq<seq<int>>
    var zoneFree: seq<int>
    var usage: map<int, Usage>
    ghost var large: map<int, int>
    ghost var owner: map<int, Owner>

    ghost function Now(): View
      reads this
    {
      View(zones, zoneFree, large, owner)
    }

    ghost predicate Valid()
      reads this, pages
    {
      && pages.Valid()
      && Configured(zoneSize, zoneLimit, zonePageCnt)
      && Good(Now(), zonePageCnt, pages.held, usage, zoneArray)
      && |zoneArray| == ZONES && |zoneFree| <= 2
    }

    /** The pages from `start` on, with the page table taken out and nothing allocated. */
    constructor (start: int, npages: nat)
      requires npages > 0
      ensures Valid() && fresh(pages)
      ensures (forall a :: !Now().Live(a)) && zoneFree == [] && forall zi :: 0 <= zi < |zoneArray| ==> zoneArray[zi] == []
      ensures zoneSize == 131072 || npages * 4 <= zoneSize * 2
      ensures zoneSize == 32768 || zoneSize < npages * 4
      ensures pages.base == start && pages.total == npages && |pages.held| == TablePages(npages)
      ensures Pages(pages.runs) == Interval(start + |pages.held|, npages - |pages.held|)
    {
      hide Good;
      hide RoundUp;
      hide Canonical;
      hide Segment;
      hide Pages;
      hide Interval;
      var pa := new PageAllocator(start, npages);
      var size := ZoneSizeFor(npages * PAGE);
      var n := RoundUp(npages * 4, PAGE) / PAGE;
      TableFits(pa.runs, start, npages, n);
      var table := pa.PageAlloc(n);
      TableFirst(start, npages, n, table.p);
      pages := pa;
      zoneSize, zoneLimit, zonePageCnt := size, if size / 4 > 16384 then 16384 else size / 4, size / PAGE;
      zones, zoneFree, usage := map[], [], map[];
      zoneArray := seq(ZONES, i => []);
      large, owner := map[], map p | p in pa.held :: Table;
      IntervalSize(table.p, n);
      new;
      GoodStart(zonePageCnt, pages.held, owner, zoneArray);
    }

    method MallocLarge(size: int) returns (r: Pointer, ghost p: int)
      requires Valid() && size >= zoneLimit
      modifies this, pages
      ensures Valid()
      ensures r == Nil ==> !HasRun(old(Pages(pages.runs)), RoundUp(size, PAGE) / PAGE) && Now() == old(Now())
      ensures r != Nil ==> HasRun(old(Pages(pages.runs)), RoundUp(size, PAGE) / PAGE) && Gains(old(Now()), Now(), r.a, RoundUp(size, PAGE))
      ensures r != Nil ==> r.a == p * PAGE && LowestRun(old(Pages(pages.runs)), RoundUp(size, PAGE) / PAGE, p)
    {
      hide Good;
      hide Gains;
      hide Same;
      RoundUpBounds(size, PAGE);
      var bytes := RoundUp(size, PAGE);
      var n := bytes / PAGE;
      p := 0;
      var place := pages.PageAlloc(n);
      if place == Null {
        return Nil, 0;
      }
      GoodLarge(Now(), zonePageCnt, old(pages.held), usage, zoneArray, place.p, n);
      ghost var w := AddLarge(Now(), place.p, n);
      usage := usage[place.p := Usage(LargePage, n)];
      large, owner := w.large, w.owner;
      return At(place.p * PAGE), place.p;
    }

    /** A chunk of the first listed zone: a fresh one while there are any, else the last one freed. */
    method TakeListed(zi: int) returns (a: int)
      requires Valid() && 0 <= zi < ZONES && zoneArray[zi] != []
      modifies this
      ensures Valid() && Gains(old(Now()), Now(), a, ChunkOf(zi)) && Aligns(a, ChunkOf(zi), old(zoneArray[zi][0]))
      ensures old(Now().Active(zoneArray[zi][0])) && FromZone(old(zones[zoneArray[zi][0]]), a)
      ensures zoneArray == if old(zones[zoneArray[zi][0]]).nfree == 1 then old(zoneArray)[zi := old(zoneArray)[zi][1..]] else old(zoneArray)
      ensures zoneFree == old(zoneFree) && Pages(pages.runs) == old(Pages(pages.runs))
    {
      hide Gains;
      hide Aligns;
      GoodTake(Now(), zonePageCnt, pages.held, usage, zoneArray, zi);
      GoodFrom(Now(), zonePageCnt, pages.held, usage, zoneArray, zi);
      hide Good; hide FromZone;
      var z := zoneArray[zi][0];
      var zn := zones[z];
      zn := zn.(nfree := zn.nfree - 1);
      if zn.nfree == 0 {
        zoneArray := zoneArray[zi := zoneArray[zi][1..]];
      }
      if zn.uindex + 1 != zn.nmax {
        zn := zn.(uindex := zn.uindex + 1);
        a := zn.base + zn.uindex * zn.chunksize;
      } else {
        a := zn.freechunks[0];
        zn := zn.(freechunks := zn.freechunks[1..]);
      }
      zones := zones[z := zn];
    }

    /** The zone header is written and linked; returns the first chunk. */
    method SetUp(z: int, zi: int) returns (a: int)
      requires 0 <= zi < |zoneArray|
      modifies `zones, `zoneArray
      ensures zones == old(zones)[z := NewZone(z, zi, ChunkOf(zi), zoneSize)]
      ensures zoneArray == old(zoneArray)[zi := [z] + old(zoneArray)[zi]]
      ensures a == zones[z].base
    {
      var size := ChunkOf(zi);
      var off := Off(size);
      var nmax := (zoneSize - off) / size;
      a := z * PAGE + off;
      zones := zones[z := Zone(nmax - 1, nmax, a, 0, size, zi, [])];
      zoneArray := zoneArray[zi := [z] + zoneArray[zi]];
    }

    method TakeRetired(zi: int) returns (a: int)
      requires Valid() && 0 <= zi < ZONES && 3 * ChunkOf(zi) + HEADER <= zoneSize && zoneFree != []
      modifies this
      ensures Valid() && Gains(old(Now()), Now(), a, ChunkOf(zi)) && Aligns(a, ChunkOf(zi), old(zoneFree[0]))
    {
      hide Gains;
      hide Aligns;
      hide Good;
      hide ChunkOf;
      hide NewZone;
      GoodReuse(Now(), zonePageCnt, pages.held, usage, zoneArray, zi);
      var z := zoneFree[0];
      zoneFree := zoneFree[1..];
      a := SetUp(z, zi);
    }

    method TakeFresh(zi: int) returns (r: Pointer, ghost z: int)
      requires Valid() && 0 <= zi < ZONES && 3 * ChunkOf(zi) + HEADER <= zoneSize
      modifies this, pages
      ensures Valid()
      ensures r == Nil <==> !HasRun(old(Pages(pages.runs)), zonePageCnt)
      ensures r == Nil ==> Now() == old(Now())
      ensures r != Nil ==> Gains(old(Now()), Now(), r.a, ChunkOf(zi)) && Aligns(r.a, ChunkOf(zi), z)
      ensures r != Nil ==> LowestRun(old(Pages(pages.runs)), zonePageCnt, z)
    {
      hide Gains;
      hide Aligns;
      hide Good;
      hide ChunkOf;
      hide NewZone;
      hide Interval;
      var p := pages.PageAlloc(zonePageCnt);
      if p == Null {
        return Nil, 0;
      }
      ghost var usage0 := usage;
      MarkPages(p.p, SmallPage);
      GoodAdd(Now(), zonePageCnt, old(pages.held), usage0, usage, zoneArray, zi, p.p);
      owner := Assign(owner, p.p, zonePageCnt, InZone(p.p));
      var a := SetUp(p.p, zi);
      return At(a), p.p;
    }

    /** The table entries of a zone's pages: their distance from the zone, or free again. */
    method MarkPages(z: int, kind: Kind)
      requires zonePageCnt > 0
      modifies `usage
      ensures forall p :: Within(p, z, zonePageCnt) ==> p in usage && usage[p] == Usage(kind, if kind == SmallPage then p - z else 0)
      ensures forall p :: p in old(usage) && !Within(p, z, zonePageCnt) ==> p in usage && usage[p] == old(usage[p])
    {
      var off := 0;
      while off < zonePageCnt
        invariant 0 <= off <= zonePageCnt
        invariant forall p :: Within(p, z, off) ==> p in usage && usage[p] == Usage(kind, if kind == SmallPage then p - z else 0)
        invariant forall p :: p in old(usage) && !Within(p, z, off) ==> p in usage && usage[p] == old(usage[p])
      {
        usage := usage[z + off := Usage(kind, if kind == SmallPage then off else 0)];
        off := off + 1;
      }
    }

    /** The page that a request of `size` bytes will be served from: of the large block, or of the zone. */
    ghost predicate Origin(size: nat, p: int)
      reads this, pages
    {
      if size >= zoneLimit then LowestRun(Pages(pages.runs), RoundUp(size, PAGE) / PAGE, p)
      else
        var zi := ZoneIndex(size).0;
        if 0 <= zi < |zoneArray| && zoneArray[zi] != [] then p == zoneArray[zi][0]
        else if zoneFree != [] then p == zoneFree[0]
        else LowestRun(Pages(pages.runs), zonePageCnt, p)
    }

    /** A new allocation of at least `size` bytes, apart from all others, or null exactly when there is no room. A
        power-of-two request up to the page size is aligned to its size; a larger one exactly when the page it is served
        from is. */
    method Malloc(size: nat) returns (r: Pointer, ghost p: int)
      requires Valid()
      modifies this, pages
      ensures Valid()
      ensures r == Nil ==> Now() == old(Now())
      ensures r == Nil <==>
        || size == 0
        || (size >= zoneLimit && !HasRun(old(Pages(pages.runs)), RoundUp(size, PAGE) / PAGE))
        || (size < zoneLimit && old(zoneArray[ZoneIndex(size).0]) == [] && old(zoneFree) == []
            && !HasRun(old(Pages(pages.runs)), zonePageCnt))
      ensures r != Nil ==> Gains(old(Now()), Now(), r.a, if size >= zoneLimit then RoundUp(size, PAGE) else ZoneIndex(size).1)
      ensures r != Nil ==> old(Origin(size, p)) && (size >= zoneLimit ==> r.a == p * PAGE)
      ensures r != Nil && PowerOfTwo(size) ==>
        if size <= PAGE then r.a % size == 0 else r.a % size == 0 <==> p * PAGE % size == 0
    {
      hide PowerOfTwo;
      hide Aligns;
      hide LowestRun;
      hide HasRun;
      hide Good;
      hide Gains;
      hide ZoneIndex;
      hide RoundUp;
      hide ChunkOf;
      p := 0;
      if size == 0 {
        return Nil, 0;
      }
      if size >= zoneLimit {
        r, p := MallocLarge(size);
        return;
      }
      var (zi, bytes) := ZoneIndex(size);
      ZoneIndexRounds(size);
      ZoneHoldsTwo(zoneSize, zoneLimit, zonePageCnt, size);
      if zoneArray[zi] != [] {
        p := zoneArray[zi][0];
        var a := TakeListed(zi);
        r := At(a);
      } else if zoneFree != [] {
        p := zoneFree[0];
        var a := TakeRetired(zi);
        r := At(a);
      } else {
        r, p := TakeFresh(zi);
      }
      if r != Nil && PowerOfTwo(size) {
        RequestAligned(size, r.a, p);
      }
    }

    /** The allocation at `r` is gone and nothing else changes, whatever happens to its zone. */
    method Free(r: Pointer)
      requires Valid() && (r != Nil ==> Now().Live(r.a))
      modifies this, pages
      ensures Valid()
      ensures r == Nil ==> Now() == old(Now())
      ensures r != Nil ==> Gains(Now(), old(Now()), r.a, old(Now().Len(r.a)))
    {
      if r == Nil {
        return;
      }
      LeadsBack(Now(), usage, zonePageCnt, pages.held, r.a);
      hide Good;
      hide Gains;
      var kup := usage[r.a / PAGE];
      if kup.kind == LargePage {
        FreeLarge(r.a / PAGE);
      } else {
        FreeChunk(r.a, r.a / PAGE - kup.size);
      }
    }

    /** The count is cleared, the page type is not. */
    method FreeLarge(b: int)
      requires Valid() && b in large && b in usage && usage[b] == Usage(LargePage, large[b])
      modifies this, pages
      ensures Valid() && Gains(Now(), old(Now()), b * PAGE, old(large[b]) * PAGE)
      ensures b in usage && usage[b].kind == LargePage && usage[b].size == 0
      ensures Pages(pages.runs) == old(Pages(pages.runs)) + Interval(b, old(large[b]))
      ensures zones == old(zones) && zoneArray == old(zoneArray) && zoneFree == old(zoneFree)
    {
      hide Gains;
      GoodUnlarge(Now(), zonePageCnt, pages.held, usage, zoneArray, b);
      hide Good;
      ghost var w := DropLarge(Now(), b);
      var size := usage[b].size;
      usage := usage[b := Usage(LargePage, 0)];
      pages.PageFree(b, size);
      large, owner := w.large, w.owner;
    }

    method FreeChunk(a: int, z: int)
      requires Valid() && Now().Active(z) && a in zones[z].Held()
      modifies this, pages
      ensures Valid() && Gains(Now(), old(Now()), a, old(zones[z].chunksize))
      ensures var zn := old(zones[z]);
        && 0 <= zn.zoneindex < |old(zoneArray)|
        && (Now().Active(z) <==> zn.nfree + 1 < zn.nmax || forall y <- old(zoneArray)[zn.zoneindex] :: y == z)
        && (Now().Active(z) ==> zones[z].freechunks == [a] + zn.freechunks)
    {
      hide Gains; hide Same; hide Good; hide Configured;
      GoodOut(Now(), zonePageCnt, pages.held, usage, zoneArray, z, a);
      hide Zone.Held;
      var zi := PutBack(a, z);
      ghost var w := Now();
      if zones[z].nfree == zones[z].nmax && (zoneArray[zi][0] != z || |zoneArray[zi]| > 1) {
        Retire(z, zi);
        GainsSame(old(Now()), w, Now(), a, old(zones[z].chunksize));
      }
    }

    /** The chunk goes to the front of its zone's list; a zone that had none is listed again. */
    method PutBack(a: int, z: int) returns (zi: int)
      requires Valid() && Now().Active(z) && a in zones[z].Held()
      modifies `zones, `zoneArray
      ensures Valid() && Gains(Now(), old(Now()), a, old(zones[z].chunksize))
      ensures var zn := old(zones[z]);
        && zi == zn.zoneindex && 0 <= zi < ZONES && z in zoneArray[zi]
        && zones == old(zones)[z := zn.(freechunks := [a] + zn.freechunks, nfree := zn.nfree + 1)]
        && zoneArray == if zn.nfree == 0 then old(zoneArray)[zi := [z] + old(zoneArray)[zi]] else old(zoneArray)
    {
      hide Gains;
      GoodPut(Now(), zonePageCnt, pages.held, usage, zoneArray, z, a);
      hide Good;
      zi := zones[z].zoneindex;
      if zones[z].nfree == 0 {
        zoneArray := zoneArray[zi := [z] + zoneArray[zi]];
      }
      zones := zones[z := zones[z].(freechunks := [a] + zones[z].freechunks, nfree := zones[z].nfree + 1)];
      GoodListed(Now(), zonePageCnt, pages.held, usage, zoneArray, z, zi);
    }

    /** A zone with no chunk out leaves its list; more than two retired zones are not kept. */
    method Retire(z: int, zi: int)
      requires Valid() && 0 <= zi < ZONES && z in zoneArray[zi] && z in zones && zones[z].nfree == zones[z].nmax
      modifies this, pages
      ensures Valid() && Same(old(Now()), Now()) && !Now().Active(z)
      ensures zoneArray == old(zoneArray)[zi := Without(old(zoneArray)[zi], z)]
      ensures |old(zoneFree)| < 2 ==>
        && zoneFree == [z] + old(zoneFree) && z in zones && Pages(pages.runs) == old(Pages(pages.runs))
      ensures |old(zoneFree)| == 2 ==>
        && zoneFree == old(zoneFree) && z !in zones
        && Pages(pages.runs) == old(Pages(pages.runs)) + Interval(z, zonePageCnt)
    {
      GoodDistinct(Now(), zonePageCnt, pages.held, usage, zoneArray, zi);
      hide Same;
      hide Good;
      hide Without;
      hide Pages;
      var i := 0;
      while zoneArray[zi][i] != z
        invariant 0 <= i < |zoneArray[zi]| && z in zoneArray[zi][i..]
        decreases |zoneArray[zi]| - i
      {
        i := i + 1;
      }
      WithoutSplit(zoneArray[zi], i);
      GoodRetire(Now(), zonePageCnt, pages.held, usage, zoneArray, zi, i);
      zoneArray := zoneArray[zi := zoneArray[zi][..i] + zoneArray[zi][i + 1..]];
      zoneFree := [z] + zoneFree;
      ghost var w := Now();
      if |zoneFree| > 2 {
        Release();
        SameTwice(old(Now()), w, Now());
      }
    }

    method Release()
      requires pages.Valid() && Configured(zoneSize, zoneLimit, zonePageCnt) && |zoneArray| == ZONES && 0 < |zoneFree| <= 3
      requires Good(Now(), zonePageCnt, pages.held, usage, zoneArray)
      modifies this, pages
      ensures Valid() && Same(old(Now()), Now())
      ensures zoneArray == old(zoneArray) && zoneFree == old(zoneFree)[1..] && zones == old(zones) - {old(zoneFree)[0]}
      ensures Pages(pages.runs) == old(Pages(pages.runs)) + Interval(old(zoneFree)[0], zonePageCnt)
    {
      hide Same;
      hide Good;
      var z := zoneFree[0];
      ghost var usage0, w := usage, DropZone(Now(), zonePageCnt);
      MarkPages(z, FreePage);
      GoodDrop(Now(), zonePageCnt, pages.held, usage0, usage, zoneArray);
      pages.PageFree(z, zonePageCnt);
      zoneFree := zoneFree[1..];
      zones, owner := zones - {z}, w.owner;
    }

    /** Any two allocations are apart, and all lie on pages taken from the page allocator. */
    lemma Separated(a: int, b: int)
      requires Valid() && Now().Live(a) && Now().Live(b) && a < b
      ensures a + Now().Len(a) <= b
      ensures forall x :: a <= x < a + Now().Len(a) ==> x / PAGE in pages.held
    {
      LiveApart(Now(), zonePageCnt, pages.held, a, b);
      forall x | a <= x < a + Now().Len(a)
        ensures x / PAGE in pages.held
      {
        LiveInside(Now(), zonePageCnt, pages.held, a, x);
      }
    }
  }

  // ---- Misaligned allocations ----------------------------------------------------------------------------------

  /** Where to start `2 * m` pages so that the page behind the table is odd. */
  function StartFor(m: nat): int {
    if TablePages(2 * m) % 2 == 0 then 1 else 2
  }

  lemma OddPlace(m: nat)
    requires m >= 2
    ensures (StartFor(m) + TablePages(2 * m)) % 2 == 1 && 0 < TablePages(2 * m) && TablePages(2 * m) + m <= 2 * m
    ensures m == 2 ==> 2 * m * 4 <= 65536
  {
  }

  lemma FirstPlace(a: int, n: int, m: int, p: int)
    requires 0 < m <= n
    ensures HasRun(Interval(a, n), m)
    ensures LowestRun(Interval(a, n), m, p) ==> p == a
  {
    assert Interval(a, m) <= Interval(a, n);
    if LowestRun(Interval(a, n), m, p) {
      assert p in Interval(p, m);
    }
  }

  lemma WholePages(size: nat)
    requires PowerOfTwo(size) && size > PAGE
    ensures RoundUp(size, PAGE) == size && size / PAGE >= 2
    ensures size >= 16384 || (size / PAGE == 2 && size == 8192)
  {
    assert PowerOfTwo(2) && PowerOfTwo(8) && PowerOfTwo(32) && PowerOfTwo(128) && PowerOfTwo(512) && PowerOfTwo(2048);
    PowersDivide(PAGE, size);
    NextPower(size);
    if size < 16384 {
      PowerCases(size);
    }
  }

  /** For every power of two above the page size the first allocation of a new allocator can be misaligned. */
  method Misaligned(size: nat) returns (m: Allocator, r: Pointer)
    requires PowerOfTwo(size) && size > PAGE
    ensures fresh(m) && m.Valid() && r.At? && m.Now().Live(r.a) && m.Now().Len(r.a) == size && r.a % size != 0
  {
    WholePages(size);
    var n := size / PAGE;
    OddPlace(n);
    OddPage(StartFor(n) + TablePages(2 * n), size);
    hide PowerOfTwo;
    hide RoundUp;
    hide TablePages;
    hide StartFor;
    m, r := PlacedAt(StartFor(n), 2 * n, size);
  }

  /** The first large allocation lies right behind the page table. */
  method PlacedAt(start: int, npages: nat, size: nat) returns (m: Allocator, r: Pointer)
    requires npages > 0 && RoundUp(size, PAGE) == size && 0 < size / PAGE <= npages - TablePages(npages)
    requires size >= 16384 || (size >= 8192 && npages * 4 <= 32768)
    ensures fresh(m) && m.Valid() && r == At((start + TablePages(npages)) * PAGE) && m.Now().Live(r.a) && m.Now().Len(r.a) == size
  {
    hide PowerOfTwo;
    hide RoundUp;
    hide LowestRun;
    hide HasRun;
    hide Pages;
    hide Interval;
    hide Good;
    hide Gains;
    hide Canonical;
    hide Segment;
    hide ZoneIndex;
    hide TablePages;
    m := new Allocator(start, npages);
    ghost var v, at, free, p := m.Now(), start + TablePages(npages), npages - TablePages(npages), 0;
    FirstPlace(at, free, size / PAGE, 0);
    assert m.zoneLimit <= size;
    r, p := m.Malloc(size);
    FirstPlace(at, free, size / PAGE, p);
    GainsLive(v, m.Now(), r.a, size);
  }

  /** So can a chunk of a zone: with 17000 pages the zones have 64K and the page table takes 17 pages. */
  method MisalignedChunk() returns (m: Allocator, r: Pointer)
    ensures fresh(m) && m.Valid() && r.At? && m.Now().Live(r.a) && r.a % 8192 != 0
    ensures 8192 < m.zoneLimit && m.Now().Len(r.a) == 8192
  {
    hide PowerOfTwo;
    hide RoundUp;
    hide LowestRun;
    hide HasRun;
    hide Pages;
    hide Interval;
    hide Good;
    hide Gains;
    hide Canonical;
    hide Segment;
    hide ZoneIndex;
    m := new Allocator(2, 17000);
    ghost var p, v := 0, m.Now();
    EightKPower();
    FirstPlace(19, 16983, 16, 0);
    r, p := m.Malloc(8192);
    GainsLive(v, m.Now(), r.a, 8192);
    FirstPlace(19, 16983, 16, p);
    OddPage(19, 8192);
  }

  lemma GainsLive(v: View, w: View, r: int, len: int)
    requires Gains(v, w, r, len)
    ensures w.Live(r) && w.Len(r) == len
  {
  }

  lemma EightKPower()
    ensures PowerOfTwo(8192) && ZoneIndex(8192) == (63, 8192)
  {
    assert PowerOfTwo(2) && PowerOfTwo(8) && PowerOfTwo(32) && PowerOfTwo(128) && PowerOfTwo(512) && PowerOfTwo(2048);
  }
}
