/** The page allocator under the slab (slab.c): a list of runs of free pages in address order.
    Addresses count pages. */
module PageRuns {

  datatype Run = Run(start: int, len: int) {
    function End(): int { start + len }
  }

  datatype Address = Null | Page(p: int)

  predicate Within(p: int, a: int, n: int) { a <= p < a + n }

  ghost function Interval(a: int, n: int): set<int> {
    set p | a <= p < a + n && Within(p, a, n)
  }

  /** Non-empty runs in address order with a gap between neighbours, starting at `lo` or later. */
  ghost predicate Canonical(rs: seq<Run>, lo: int)
  {
    rs != [] ==> rs[0].len > 0 && lo <= rs[0].start && Canonical(rs[1..], rs[0].End() + 1)
  }

  ghost function Pages(rs: seq<Run>): set<int> {
    if rs == [] then {} else Interval(rs[0].start, rs[0].len) + Pages(rs[1..])
  }

  lemma {:induction false} PagesBound(rs: seq<Run>, lo: int)
    requires Canonical(rs, lo)
    ensures forall p :: p in Pages(rs) ==> lo <= p
  {
    if rs != [] {
      PagesBound(rs[1..], rs[0].End() + 1);
    }
  }

  lemma {:induction false} CanonicalLower(rs: seq<Run>, lo: int, lo': int)
    requires Canonical(rs, lo) && (lo' <= lo || (rs != [] ==> lo' <= rs[0].start))
    ensures Canonical(rs, lo')
  {
  }

  lemma {:induction false} CanonicalConcat(a: seq<Run>, b: seq<Run>, lo: int)
    ensures Canonical(a + b, lo) <==> Canonical(a, lo) && Canonical(b, if a == [] then lo else a[|a| - 1].End() + 1)
  {
    if a == [] {
      assert a + b == b;
    } else {
      assert (a + b)[1..] == a[1..] + b;
      CanonicalConcat(a[1..], b, a[0].End() + 1);
    }
  }

  lemma {:induction false} PagesConcat(a: seq<Run>, b: seq<Run>)
    ensures Pages(a + b) == Pages(a) + Pages(b)
  {
    if a == [] {
      assert a + b == b;
    } else {
      assert (a + b)[1..] == a[1..] + b;
      PagesConcat(a[1..], b);
    }
  }

  /** Before a canonical rest, all pages lie below it. */
  lemma {:induction false} PagesBelow(a: seq<Run>, lo: int)
    requires Canonical(a, lo) && a != []
    ensures forall p :: p in Pages(a) ==> p < a[|a| - 1].End()
  {
    if |a| == 1 {
      assert a[1..] == [] && Pages(a[1..]) == {};
    } else {
      PagesBelow(a[1..], a[0].End() + 1);
      var last := a[|a| - 1];
      assert last == a[1..][|a| - 2];
      PagesBound(a[1..], a[0].End() + 1);
      assert a[1].start in Interval(a[1].start, a[1].len);
      assert a[1].start in Pages(a[1..]);
    }
  }

  // ---- Canonical lists are the maximal runs ---------------------------------------------------------

  /** Any stretch of free pages lies inside one run. */
  lemma {:induction false} StretchInOneRun(rs: seq<Run>, lo: int, a: int, n: int) returns (k: nat)
    requires Canonical(rs, lo) && 0 < n && Interval(a, n) <= Pages(rs)
    ensures k < |rs| && rs[k].start <= a && a + n <= rs[k].End()
  {
    assert a in Interval(a, n);
    var r, rest := rs[0], rs[1..];
    PagesBound(rest, r.End() + 1);
    if a in Interval(r.start, r.len) {
      k := 0;
      assert r.End() !in Pages(rs);
      assert r.End() !in Interval(a, n);
    } else {
      assert a in Pages(rest);
      forall p | p in Interval(a, n) ensures p in Pages(rest) {
      }
      k := StretchInOneRun(rest, r.End() + 1, a, n);
      k := k + 1;
    }
  }

  /** The list is determined by the set of free pages. */
  lemma {:induction false} CanonicalUnique(a: seq<Run>, b: seq<Run>, lo: int)
    requires Canonical(a, lo) && Canonical(b, lo) && Pages(a) == Pages(b)
    ensures a == b
  {
    StartsFree(a, lo);
    StartsFree(b, lo);
    assert (exists p :: p in Pages(a)) <==> a != [] by {
      if a != [] {
        assert a[0] in a;
      }
    }
    assert b != [] ==> b[0] in b;
    if a != [] {
      SameFirst(a, b, lo);
      PagesBound(a[1..], a[0].End() + 1);
      PagesBound(b[1..], b[0].End() + 1);
      var i := Interval(a[0].start, a[0].len);
      assert Pages(a[1..]) == Pages(a) - i && Pages(b[1..]) == Pages(b) - i;
      CanonicalUnique(a[1..], b[1..], a[0].End() + 1);
    }
  }

  lemma SameFirst(a: seq<Run>, b: seq<Run>, lo: int)
    requires Canonical(a, lo) && Canonical(b, lo) && Pages(a) == Pages(b) && a != [] && b != []
    ensures a[0] == b[0]
  {
    PagesBound(a[1..], a[0].End() + 1);
    PagesBound(b[1..], b[0].End() + 1);
    assert a[0].start in Pages(a) && b[0].start in Pages(b);
    assert a[0].start == b[0].start;
    assert a[0].End() !in Pages(a) && b[0].End() !in Pages(b);
    assert a[0].End() !in Interval(b[0].start, b[0].len);
    assert b[0].End() !in Interval(a[0].start, a[0].len);
  }

  lemma {:induction false} IntervalSize(a: int, n: nat)
    ensures |Interval(a, n)| == n
  {
    if n == 0 {
      assert Interval(a, 0) == {};
    } else {
      IntervalSize(a, n - 1);
      assert Interval(a, n) == Interval(a, n - 1) + {a + n - 1};
    }
  }

  // ---- The list in the pages' own headers ------------------------------------------------------------

  type Links = map<int, Address>
  type Sizes = map<int, int>

  /** Following `next` from `from` passes the headers of exactly these runs and arrives at `to`. */
  ghost predicate Segment(rs: seq<Run>, from: Address, to: Address, next: Links, page: Sizes)
  {
    if rs == [] then from == to
    else
      var s := rs[0].start;
      from == Page(s) && s in next && s in page && page[s] == rs[0].len && Segment(rs[1..], next[s], to, next, page)
  }

  lemma {:induction false} SegmentConcat(a: seq<Run>, b: seq<Run>, from: Address, mid: Address, to: Address, next: Links, page: Sizes)
    requires Segment(a, from, mid, next, page) && Segment(b, mid, to, next, page)
    ensures Segment(a + b, from, to, next, page)
  {
    if a == [] {
      assert a + b == b;
    } else {
      assert (a + b)[1..] == a[1..] + b;
      SegmentConcat(a[1..], b, next[a[0].start], mid, to, next, page);
    }
  }

  /** Headers of other pages may change. */
  lemma {:induction false} SegmentFrame(rs: seq<Run>, from: Address, to: Address, next: Links, page: Sizes, next': Links, page': Sizes)
    requires Segment(rs, from, to, next, page)
    requires forall r <- rs ::
      r.start in next && r.start in page ==>
        && r.start in next' && r.start in page'
        && next'[r.start] == next[r.start] && page'[r.start] == page[r.start]
    ensures Segment(rs, from, to, next', page')
  {
    if rs != [] {
      SegmentFrame(rs[1..], next[rs[0].start], to, next, page, next', page');
    }
  }

  /** The cell `*prev`: the list head before the first run, otherwise the `next` of the last run passed. */
  ghost function Before(rs: seq<Run>): Address {
    if rs == [] then Null else Page(rs[|rs| - 1].start)
  }

  /** Where the next run may begin after these. */
  ghost function Floor(rs: seq<Run>, lo: int): int {
    if rs == [] then lo else rs[|rs| - 1].End() + 1
  }

  lemma {:induction false} StartsFree(rs: seq<Run>, lo: int)
    requires Canonical(rs, lo)
    ensures forall r <- rs :: r.start in Pages(rs) && r.len > 0
  {
    if rs != [] {
      StartsFree(rs[1..], rs[0].End() + 1);
      assert rs[0].start in Interval(rs[0].start, rs[0].len);
    }
  }

  /** Writing `v` through `*prev` redirects the passed runs to `v`. */
  lemma {:induction false} Redirected(rs: seq<Run>, lo: int, from: Address, to: Address, next: Links, page: Sizes, v: Address)
    requires Canonical(rs, lo) && Segment(rs, from, to, next, page) && rs != []
    ensures Segment(rs, from, v, next[rs[|rs| - 1].start := v], page)
  {
    var s, last := rs[0].start, rs[|rs| - 1].start;
    var next' := next[last := v];
    if |rs| == 1 {
      assert rs[1..] == [];
    } else {
      assert rs[1..][|rs| - 2].start == last;
      StartsFree(rs[1..], rs[0].End() + 1);
      PagesBound(rs[1..], rs[0].End() + 1);
      assert last == rs[1..][|rs| - 2].start;
      assert rs[1..][|rs| - 2] in rs[1..];
      assert next'[s] == next[s];
      Redirected(rs[1..], rs[0].End() + 1, next[s], to, next, page, v);
    }
  }

  /** Replacing what follows the passed runs keeps the list canonical when the new part starts high enough. */
  lemma Replaced(a: seq<Run>, b: seq<Run>, c: seq<Run>, lo: int)
    requires Canonical(a + b, lo) && Canonical(c, Floor(a, lo))
    ensures Canonical(a, lo) && Canonical(b, Floor(a, lo)) && Canonical(a + c, lo)
    ensures Pages(a + b) == Pages(a) + Pages(b) && Pages(a + c) == Pages(a) + Pages(c)
    ensures forall p :: p in Pages(a) ==> p < Floor(a, lo)
    ensures forall p :: p in Pages(b) ==> Floor(a, lo) <= p
  {
    CanonicalConcat(a, b, lo);
    CanonicalConcat(a, c, lo);
    PagesConcat(a, b);
    PagesConcat(a, c);
    PagesBound(b, Floor(a, lo));
    if a != [] {
      PagesBelow(a, lo);
    }
  }

  /** The new part `c`, whose headers are already in place, is hooked behind the runs `a`. */
  lemma Hooked(a: seq<Run>, c: seq<Run>, lo: int, list: Address, b: Address, next: Links, page: Sizes,
               next1: Links, page1: Sizes, v: Address, list2: Address, next2: Links)
    requires Canonical(a, lo) && Canonical(c, Floor(a, lo))
    requires Segment(a, list, b, next, page) && Segment(c, v, Null, next1, page1)
    requires forall p :: p < Floor(a, lo) && p in next ==> p in next1 && next1[p] == next[p]
    requires forall p :: p < Floor(a, lo) && p in page ==> p in page1 && page1[p] == page[p]
    requires Before(a) == Null ==> list2 == v && next2 == next1
    requires Before(a) != Null ==> list2 == list && next2 == next1[Before(a).p := v]
    ensures Segment(a + c, list2, Null, next2, page1)
  {
    hide Canonical;
    hide Pages;
    hide Segment;
    if a == [] {
      assert a + c == c;
      assert list2 == v;
    } else {
      StartsFree(a, lo);
      PagesBelow(a, lo);
      SegmentFrame(a, list, b, next, page, next1, page1);
      Redirected(a, lo, list, b, next1, page1, v);
      StartsFree(c, Floor(a, lo));
      PagesBound(c, Floor(a, lo));
      assert a[|a| - 1] in a;
      SegmentFrame(c, v, Null, next1, page1, next2, page1);
      SegmentConcat(a, c, list, v, Null, next2, page1);
    }
  }

  /** Passing one more run. */
  lemma Passed(a: seq<Run>, rest: seq<Run>, lo: int, list: Address, b: Address, next: Links, page: Sizes)
    requires rest != [] && Segment(a, list, b, next, page) && Segment(rest, b, Null, next, page)
    ensures a + rest == (a + [rest[0]]) + rest[1..]
    ensures Segment(a + [rest[0]], list, next[rest[0].start], next, page)
    ensures Segment(rest[1..], next[rest[0].start], Null, next, page)
    ensures Before(a + [rest[0]]) == b
  {
    assert [rest[0]][1..] == [];
    assert Segment([rest[0]], b, next[rest[0].start], next, page);
    SegmentConcat(a, [rest[0]], list, b, next[rest[0].start], next, page);
  }

  /** The pages of the first run taken from the front. */
  lemma CutFront(a: seq<Run>, rest: seq<Run>, lo: int, n: nat) returns (c: seq<Run>)
    requires Canonical(a + rest, lo) && rest != [] && 0 < n <= rest[0].len
    ensures c == (if rest[0].len == n then rest[1..] else [Run(rest[0].start + n, rest[0].len - n)] + rest[1..])
    ensures Canonical(c, Floor(a, lo)) && Canonical(a + c, lo)
    ensures Interval(rest[0].start, n) <= Pages(a + rest)
    ensures Pages(a + c) == Pages(a + rest) - Interval(rest[0].start, n)
  {
    CanonicalConcat(a, rest, lo);
    var r := rest[0];
    PagesBound(rest[1..], r.End() + 1);
    if r.len == n {
      c := rest[1..];
      CanonicalLower(c, r.End() + 1, Floor(a, lo));
      assert Pages(c) == Pages(rest) - Interval(r.start, n);
    } else {
      c := [Run(r.start + n, r.len - n)] + rest[1..];
      assert c[1..] == rest[1..];
      assert Pages(c) == Interval(r.start + n, r.len - n) + Pages(rest[1..]);
      assert Interval(r.start, r.len) == Interval(r.start, n) + Interval(r.start + n, r.len - n);
      assert Pages(c) == Pages(rest) - Interval(r.start, n);
    }
    Replaced(a, rest, c, lo);
  }

  /** Every run passed is too small, so a long enough stretch is not before the rest. */
  lemma FirstFit(a: seq<Run>, rest: seq<Run>, lo: int, n: nat, at: int)
    requires Canonical(a + rest, lo) && 0 < n && Interval(at, n) <= Pages(a + rest)
    requires forall r <- a :: r.len < n
    ensures rest != [] && rest[0].start <= at
  {
    var k := StretchInOneRun(a + rest, lo, at, n);
    var r := (a + rest)[k];
    assert r !in a;
    assert r == rest[k - |a|];
    CanonicalConcat(a, rest, lo);
    StartsFree(rest, rest[0].start);
    PagesBound(rest, rest[0].start);
    assert r in rest;
  }

  /** The freed stretch put in its place: behind, before or between the runs it touches. */
  ghost function Filled(rest: seq<Run>, n: int, np: nat): (c: seq<Run>) {
    if rest == [] || rest[0].start > n + np then [Run(n, np)] + rest
    else if rest[0].End() == n then
      if |rest| > 1 && rest[1].start == n + np then [Run(rest[0].start, rest[0].len + np + rest[1].len)] + rest[2..]
      else [Run(rest[0].start, rest[0].len + np)] + rest[1..]
    else if rest[0].start == n + np then [Run(n, rest[0].len + np)] + rest[1..]
    else rest
  }

  lemma FilledKeeps(a: seq<Run>, rest: seq<Run>, lo: int, n: int, np: nat)
    requires Canonical(a + rest, lo) && 0 < np && lo <= n && Interval(n, np) !! Pages(a + rest)
    requires Floor(a, lo) <= n
    requires rest != [] ==> rest[0].End() == n || rest[0].start == n + np || rest[0].start > n + np
    ensures Canonical(a, lo) && Canonical(rest, Floor(a, lo))
    ensures Canonical(Filled(rest, n, np), Floor(a, lo)) && Canonical(a + Filled(rest, n, np), lo)
    ensures Pages(a + Filled(rest, n, np)) == Pages(a + rest) + Interval(n, np)
  {
    CanonicalConcat(a, rest, lo);
    PagesConcat(a, rest);
    FilledRest(rest, Floor(a, lo), n, np);
    Replaced(a, rest, Filled(rest, n, np), lo);
  }

  lemma FilledRest(rest: seq<Run>, lo: int, n: int, np: nat)
    requires Canonical(rest, lo) && 0 < np && lo <= n && Interval(n, np) !! Pages(rest)
    requires rest != [] ==> rest[0].End() == n || rest[0].start == n + np || rest[0].start > n + np
    ensures Canonical(Filled(rest, n, np), lo)
    ensures Pages(Filled(rest, n, np)) == Pages(rest) + Interval(n, np)
  {
    var c := Filled(rest, n, np);
    if rest == [] || rest[0].start > n + np {
      assert c[1..] == rest;
    } else {
      var r := rest[0];
      if r.End() == n {
        assert Interval(r.start, r.len + np) == Interval(r.start, r.len) + Interval(n, np);
        if |rest| > 1 {
          var r1 := rest[1];
          assert rest[1..][0] == r1 && rest[1..][1..] == rest[2..];
          assert r1.start in Interval(r1.start, r1.len);
          assert r1.start in Pages(rest[1..]);
          assert r1.start !in Interval(n, np);
          assert n + np <= r1.start;
          if r1.start == n + np {
            assert c[1..] == rest[2..];
            assert Pages(rest) == Interval(r.start, r.len) + (Interval(r1.start, r1.len) + Pages(rest[2..]));
            assert Interval(r.start, r.len + np + r1.len) == Interval(r.start, r.len + np) + Interval(r1.start, r1.len);
            assert c[0].End() == r1.End();
          } else {
            assert c[1..] == rest[1..];
          }
        } else {
          assert c[1..] == rest[1..];
        }
      } else {
        assert c[1..] == rest[1..];
        assert Interval(n, r.len + np) == Interval(n, np) + Interval(r.start, r.len);
      }
    }
  }

  /** Held pages lie on one side of every run. */
  lemma Beside(a: seq<Run>, rest: seq<Run>, lo: int, n: int, np: nat)
    requires Canonical(a + rest, lo) && rest != [] && 0 < np && Interval(n, np) !! Pages(a + rest)
    ensures rest[0].End() <= n || n + np <= rest[0].start
  {
    var r := rest[0];
    PagesConcat(a, rest);
    CanonicalConcat(a, rest, lo);
    assert Interval(r.start, r.len) !! Interval(n, np);
    assert r.start in Interval(r.start, r.len) && n in Interval(n, np);
    assert r.start !in Interval(n, np) && n !in Interval(r.start, r.len);
  }

  /** Writing the header of one page that starts no run of `rest`. */
  lemma OtherHeader(rest: seq<Run>, lo: int, n: int, b: Address, next: Links, page: Sizes, next': Links, page': Sizes)
    requires Canonical(rest, lo) && n !in Pages(rest) && Segment(rest, b, Null, next, page)
    requires forall p :: p in next && p != n ==> p in next' && next'[p] == next[p]
    requires forall p :: p in page && p != n ==> p in page' && page'[p] == page[p]
    ensures Segment(rest, b, Null, next', page')
  {
    hide Segment;
    StartsFree(rest, lo);
    SegmentFrame(rest, b, Null, next, page, next', page');
  }

  /** The runs `a` still lead to `b`, where the new part now begins. */
  lemma InPlace(a: seq<Run>, c: seq<Run>, lo: int, list: Address, b: Address, next: Links, page: Sizes,
                next1: Links, page1: Sizes)
    requires Canonical(a, lo)
    requires Segment(a, list, b, next, page) && Segment(c, b, Null, next1, page1)
    requires forall p :: p < Floor(a, lo) && p in next ==> p in next1 && next1[p] == next[p]
    requires forall p :: p < Floor(a, lo) && p in page ==> p in page1 && page1[p] == page[p]
    ensures Segment(a + c, list, Null, next1, page1)
  {
    hide Segment;
    StartsFree(a, lo);
    if a != [] {
      PagesBelow(a, lo);
    }
    SegmentFrame(a, list, b, next, page, next1, page1);
    SegmentConcat(a, c, list, b, Null, next1, page1);
  }

  /** The headers written when the stretch is appended to the first run of `rest`. */
  lemma AppendHeader(rest: seq<Run>, lo: int, n: int, np: nat, next: Links, page: Sizes)
    requires rest != [] && Canonical(rest, lo) && rest[0].End() == n && Interval(n, np) !! Pages(rest) && 0 < np
    requires Segment(rest, Page(rest[0].start), Null, next, page)
    ensures var s := rest[0].start; var c := Filled(rest, n, np);
      if next[s] == Page(n + np) then
        && n + np in page && n + np in next
        && Segment(c, Page(s), Null, next[s := next[n + np]], page[s := page[s] + np + page[n + np]])
      else Segment(c, Page(s), Null, next, page[s := page[s] + np])
  {
    var s, rest1, c := rest[0].start, rest[1..], Filled(rest, n, np);
    PagesBound(rest1, n + 1);
    if next[s] == Page(n + np) {
      var t := n + np;
      var next', page' := next[s := next[t]], page[s := page[s] + np + page[t]];
      PagesBound(rest1[1..], rest1[0].End() + 1);
      OtherHeader(rest1[1..], rest1[0].End() + 1, s, next[t], next, page, next', page');
      assert rest1[1..] == rest[2..] && c[1..] == rest[2..];
    } else {
      OtherHeader(rest1, n + 1, s, next[s], next, page, next, page[s := page[s] + np]);
      assert c[1..] == rest1;
    }
  }

  /** The header written when `n` pages are cut from the front of the first run. */
  lemma TailHeader(rest: seq<Run>, lo: int, n: nat, next: Links, page: Sizes)
    requires rest != [] && Canonical(rest, lo) && 0 < n < rest[0].len
    requires Segment(rest, Page(rest[0].start), Null, next, page)
    ensures var s, r := rest[0].start, rest[0];
      Segment([Run(s + n, r.len - n)] + rest[1..], Page(s + n), Null, next[s + n := next[s]], page[s + n := page[s] - n])
  {
    var s, r := rest[0].start, rest[0];
    var next', page' := next[s + n := next[s]], page[s + n := page[s] - n];
    StartsFree(rest[1..], r.End() + 1);
    PagesBound(rest[1..], r.End() + 1);
    SegmentFrame(rest[1..], next[s], Null, next, page, next', page');
    var c := [Run(s + n, r.len - n)] + rest[1..];
    assert c[1..] == rest[1..];
  }

  class PageAllocator {
    var list: Address
    var next: Links
    var page: Sizes
    ghost const base: int
    ghost const total: nat
    ghost var runs: seq<Run>
    ghost var held: set<int>

    ghost predicate Valid()
      reads this
    {
      && Canonical(runs, base)
      && Segment(runs, list, Null, next, page)
      && Pages(runs) !! held
      && Pages(runs) + held == Interval(base, total)
    }

    /** Every page is free or held. */
    lemma Conserved()
      requires Valid()
      ensures |Pages(runs)| + |held| == total
    {
      IntervalSize(base, total);
      assert |Pages(runs) + held| == |Pages(runs)| + |held|;
    }

    /** `*prev = v` */
    method Store(prev: Address, v: Address)
      modifies `list, `next
      ensures prev == Null ==> list == v && next == old(next)
      ensures prev != Null ==> list == old(list) && next == old(next)[prev.p := v]
    {
      match prev
      case Null => list := v;
      case Page(q) => next := next[q := v];
    }

    /** First fit: the lowest place where `n` free pages lie together, or null exactly when there is none. */
    method PageAlloc(n: nat) returns (r: Address)
      requires Valid()
      modifies this
      ensures Valid()
      ensures n == 0 ==> r == Null
      ensures r == Null ==> Pages(runs) == old(Pages(runs)) && held == old(held)
      ensures r == Null && n > 0 ==> forall at :: !(Interval(at, n) <= old(Pages(runs)))
      ensures r != Null ==>
        && Interval(r.p, n) <= old(Pages(runs))
        && Pages(runs) == old(Pages(runs)) - Interval(r.p, n)
        && held == old(held) + Interval(r.p, n)
        && forall at :: Interval(at, n) <= old(Pages(runs)) ==> r.p <= at
    {
      hide Canonical;
      hide Pages;
      hide Interval;
      if n == 0 {
        return Null;
      }
      var prev, b := Null, list;
      ghost var a, rest: seq<Run> := [], runs;
      while b != Null
        invariant runs == a + rest
        invariant prev == Before(a)
        invariant Segment(a, list, b, next, page) && Segment(rest, b, Null, next, page)
        invariant forall r <- a :: r.len < n
        invariant unchanged(this)
        decreases |rest|
      {
        var s := b.p;
        if page[s] >= n {
          Carve(a, rest, n, prev, b);
          break;
        }
        Passed(a, rest, base, list, b, next, page);
        a, rest := a + [rest[0]], rest[1..];
        prev, b := b, next[s];
      }
      forall at | Interval(at, n) <= old(Pages(runs))
        ensures b != Null && b.p <= at
      {
        FirstFit(a, rest, base, n, at);
      }
      return b;
    }

    /** The run is split, keeping its tail, or taken whole. */
    method Carve(ghost a: seq<Run>, ghost rest: seq<Run>, n: nat, prev: Address, b: Address)
      requires Valid() && b != Null && 0 < n && b.p in page && n <= page[b.p]
      requires runs == a + rest && prev == Before(a)
      requires Segment(a, list, b, next, page) && Segment(rest, b, Null, next, page)
      modifies this
      ensures Valid()
      ensures Interval(b.p, n) <= old(Pages(runs))
      ensures Pages(runs) == old(Pages(runs)) - Interval(b.p, n)
      ensures held == old(held) + Interval(b.p, n)
    {
      hide Pages;
      hide Interval;
      var s := b.p;
      ghost var c := CutFront(a, rest, base, n);
      ghost var list0, next0, page0 := list, next, page;
      CanonicalConcat(a, rest, base);
      if page[s] > n {
        next := next[s + n := next[s]];
        page := page[s + n := page[s] - n];
        TailHeader(rest, Floor(a, base), n, next0, page0);
        ghost var next1 := next;
        Store(prev, Page(s + n));
        Hooked(a, c, base, list0, b, next0, page0, next1, page, Page(s + n), list, next);
      } else {
        Store(prev, next[s]);
        Hooked(a, c, base, list0, b, next0, page0, next0, page0, next0[s], list, next);
      }
      runs := a + c;
      held := held + Interval(s, n);
    }

    /** The pages join the free set; the unique canonical list of that set is what remains. */
    method PageFree(n: int, np: nat)
      requires Valid() && 0 < np && Interval(n, np) <= held
      modifies this
      ensures Valid()
      ensures Pages(runs) == old(Pages(runs)) + Interval(n, np)
      ensures held == old(held) - Interval(n, np)
    {
      hide Canonical;
      hide Pages;
      assert n in Interval(base, total) by {
        assert n in Interval(n, np);
      }
      var prev, b := Null, list;
      ghost var a, rest: seq<Run> := [], runs;
      while b != Null
        invariant runs == a + rest
        invariant prev == Before(a)
        invariant Segment(a, list, b, next, page) && Segment(rest, b, Null, next, page)
        invariant Floor(a, base) <= n
        invariant unchanged(this)
        decreases |rest|
      {
        var s := b.p;
        Beside(a, rest, base, n, np);
        if s + page[s] == n {
          Append(a, rest, n, np, b);
          return;
        }
        if s == n + np {
          Prepend(a, rest, n, np, prev, b);
          return;
        }
        if s > n + np {
          break;
        }
        Passed(a, rest, base, list, b, next, page);
        a, rest := a + [rest[0]], rest[1..];
        prev, b := b, next[s];
      }
      Place(a, rest, n, np, prev, b);
    }

    /** The stretch follows the run at `b`, and perhaps closes the gap to the next run. */
    method Append(ghost a: seq<Run>, ghost rest: seq<Run>, n: int, np: nat, b: Address)
      requires Valid() && 0 < np && Interval(n, np) <= held && b != Null && b.p in page && b.p in next
      requires runs == a + rest && Floor(a, base) <= n && base <= n
      requires Segment(a, list, b, next, page) && Segment(rest, b, Null, next, page)
      requires b.p + page[b.p] == n
      modifies this
      ensures Valid()
      ensures Pages(runs) == old(Pages(runs)) + Interval(n, np)
      ensures held == old(held) - Interval(n, np)
    {
      hide Pages;
      var s := b.p;
      FilledKeeps(a, rest, base, n, np);
      ghost var c := Filled(rest, n, np);
      ghost var next0, page0 := next, page;
      CanonicalConcat(a, rest, base);
      PagesConcat(a, rest);
      page := page[s := page[s] + np];
      AppendHeader(rest, Floor(a, base), n, np, next0, page0);
      if next[s] == Page(s + page[s]) {
        var t := next[s].p;
        page := page[s := page[s] + page[t]];
        next := next[s := next[t]];
        assert page == page0[s := page0[s] + np + page0[t]];
      }
      InPlace(a, c, base, list, b, next0, page0, next, page);
      runs := a + c;
      held := held - Interval(n, np);
    }

    /** The stretch ends where the run at `b` starts. */
    method Prepend(ghost a: seq<Run>, ghost rest: seq<Run>, n: int, np: nat, prev: Address, b: Address)
      requires Valid() && 0 < np && Interval(n, np) <= held && b != Null && b.p in page && b.p in next
      requires runs == a + rest && prev == Before(a) && Floor(a, base) <= n && base <= n
      requires Segment(a, list, b, next, page) && Segment(rest, b, Null, next, page)
      requires b.p == n + np
      modifies this
      ensures Valid()
      ensures Pages(runs) == old(Pages(runs)) + Interval(n, np)
      ensures held == old(held) - Interval(n, np)
    {
      hide Pages;
      var s := b.p;
      FilledKeeps(a, rest, base, n, np);
      ghost var c := Filled(rest, n, np);
      ghost var list0, next0, page0 := list, next, page;
      CanonicalConcat(a, rest, base);
      page := page[n := page[s] + np];
      next := next[n := next[s]];
      ghost var next1 := next;
      assert Segment(c, Page(n), Null, next, page) by {
        PagesBound(rest[1..], rest[0].End() + 1);
        OtherHeader(rest[1..], rest[0].End() + 1, n, next0[s], next0, page0, next, page);
        assert c[1..] == rest[1..];
      }
      Store(prev, Page(n));
      Hooked(a, c, base, list0, b, next0, page0, next1, page, Page(n), list, next);
      runs := a + c;
      held := held - Interval(n, np);
    }

    /** The stretch touches no run. */
    method Place(ghost a: seq<Run>, ghost rest: seq<Run>, n: int, np: nat, prev: Address, b: Address)
      requires Valid() && 0 < np && Interval(n, np) <= held
      requires runs == a + rest && prev == Before(a) && Floor(a, base) <= n && base <= n
      requires Segment(a, list, b, next, page) && Segment(rest, b, Null, next, page)
      requires b != Null ==> b.p > n + np
      modifies this
      ensures Valid()
      ensures Pages(runs) == old(Pages(runs)) + Interval(n, np)
      ensures held == old(held) - Interval(n, np)
    {
      hide Pages;
      hide Canonical;
      FilledKeeps(a, rest, base, n, np);
      ghost var c := Filled(rest, n, np);
      ghost var list0, next0, page0 := list, next, page;
      page := page[n := np];
      next := next[n := b];
      ghost var next1 := next;
      assert Segment(c, Page(n), Null, next, page) by {
        PagesConcat(a, rest);
        assert n in Interval(n, np);
        OtherHeader(rest, Floor(a, base), n, b, next0, page0, next, page);
        assert c[1..] == rest;
      }
      Store(prev, Page(n));
      Hooked(a, c, base, list0, b, next0, page0, next1, page, Page(n), list, next);
      runs := a + c;
      held := held - Interval(n, np);
    }

    /** All pages start out free, in one run. */
    constructor (addr: int, npages: nat)
      requires npages > 0
      ensures Valid() && base == addr && total == npages && held == {}
      ensures runs == [Run(addr, npages)]
    {
      list, next, page := Null, map[], map[];
      base, total := addr, npages;
      runs, held := [], Interval(addr, npages);
      new;
      PageFree(addr, npages);
      ghost var one := [Run(addr, npages)];
      assert one[1..] == [];
      CanonicalUnique(runs, one, addr);
    }
  }
}
