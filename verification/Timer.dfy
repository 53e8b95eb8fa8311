/** The hard timers of timer.c: a skip list of doubly linked rows, ordered by 32-bit ticks that
    wrap around.  Row `levels - 1` links every started timer; each row above links some of those. */
module Timer {
  import Ring
  import opened Lists
  import opened TimerSpec

  type Links = Ring.Links

  /** The list head node of every row. */
  const HEAD: Id := -1

  /** Ticks are 32-bit. */
  const WRAP := 0x1_0000_0000

  function Wrapped(n: int): nat { n % WRAP }

  lemma WrapAdd(n: int, d: int)
    ensures Wrapped(Wrapped(n) + d) == Wrapped(n + d)
  {
  }

  /** Unsigned 32-bit subtraction. */
  function Sub(a: int, b: int): (r: nat)
    ensures r < WRAP
  {
    (a - b) % WRAP
  }

  /** Wrapping comparison agrees with the unbounded clock inside half a range. */
  lemma Compare(a: int, b: int)
    requires -HALF < a - b < HALF
    ensures Sub(Wrapped(a), Wrapped(b)) == 0 <==> a == b
    ensures 0 < Sub(Wrapped(a), Wrapped(b)) < HALF <==> b < a
  {
    assert Sub(Wrapped(a), Wrapped(b)) == (a - b) % WRAP;
  }

  // ---- Rows ---------------------------------------------------------------------------------------------

  /** The timers of `l` that reach level `lvl` (the bottom row is level 1). */
  function Row(l: seq<Id>, height: map<Id, nat>, lvl: nat): (r: seq<Id>)
  {
    if l == [] then []
    else (if l[0] in height && height[l[0]] >= lvl then [l[0]] else []) + Row(l[1..], height, lvl)
  }

  lemma {:induction false} RowConcat(a: seq<Id>, b: seq<Id>, height: map<Id, nat>, lvl: nat)
    ensures Row(a + b, height, lvl) == Row(a, height, lvl) + Row(b, height, lvl)
  {
    if a == [] {
      assert a + b == b;
    } else {
      assert (a + b)[1..] == a[1..] + b;
      RowConcat(a[1..], b, height, lvl);
    }
  }

  lemma {:induction false} RowMember(l: seq<Id>, height: map<Id, nat>, lvl: nat)
    ensures forall x :: x in Row(l, height, lvl) <==> x in l && x in height && height[x] >= lvl
    ensures forall i :: 0 <= i < |Row(l, height, lvl)| ==> Row(l, height, lvl)[i] in l
  {
    if l != [] {
      RowMember(l[1..], height, lvl);
      assert l == [l[0]] + l[1..];
    }
  }

  /** The bottom row links everybody. */
  lemma {:induction false} RowBottom(l: seq<Id>, height: map<Id, nat>)
    requires forall i :: 0 <= i < |l| ==> l[i] in height && height[l[i]] >= 1
    ensures Row(l, height, 1) == l
  {
    if l != [] {
      RowBottom(l[1..], height);
    }
  }

  /** Each row is a subsequence of the row below. */
  lemma {:induction false} RowOfRow(l: seq<Id>, height: map<Id, nat>, lvl: nat)
    ensures Row(l, height, lvl + 1) == Row(Row(l, height, lvl), height, lvl + 1)
  {
    if l != [] {
      RowOfRow(l[1..], height, lvl);
      var r := Row(l[1..], height, lvl);
      if l[0] in height && height[l[0]] >= lvl {
        assert ([l[0]] + r)[1..] == r;
      } else {
        assert [] + r == r;
      }
    }
  }

  lemma {:induction false} RowWithout(l: seq<Id>, height: map<Id, nat>, lvl: nat, x: Id)
    ensures Row(Without(l, x), height, lvl) == Without(Row(l, height, lvl), x)
  {
    if l != [] {
      RowWithout(l[1..], height, lvl, x);
      var h, r, w := [l[0]], Row(l[1..], height, lvl), Without(l[1..], x);
      if l[0] != x { assert (h + w)[1..] == w; } else { assert [] + w == w; }
      if l[0] in height && height[l[0]] >= lvl { assert (h + r)[1..] == r; } else { assert [] + r == r; }
    }
  }

  lemma {:induction false} RowFrame(l: seq<Id>, height: map<Id, nat>, lvl: nat, x: Id, n: nat)
    requires x !in l
    ensures Row(l, height[x := n], lvl) == Row(l, height, lvl)
  {
    if l != [] {
      RowFrame(l[1..], height, lvl, x, n);
    }
  }

  lemma RowInsert(l: seq<Id>, height: map<Id, nat>, lvl: nat, k: nat, x: Id, n: nat)
    requires k <= |l| && x !in l
    ensures Row(l[..k] + [x] + l[k..], height[x := n], lvl) ==
            Row(l[..k], height, lvl) + (if n >= lvl then [x] else []) + Row(l[k..], height, lvl)
    ensures Row(l, height, lvl) == Row(l[..k], height, lvl) + Row(l[k..], height, lvl)
  {
    var h := height[x := n];
    RowConcat(l[..k] + [x], l[k..], h, lvl);
    RowConcat(l[..k], [x], h, lvl);
    RowFrame(l[..k], height, lvl, x, n);
    RowFrame(l[k..], height, lvl, x, n);
    assert [x][1..] == [];
    RowConcat(l[..k], l[k..], height, lvl);
    assert l == l[..k] + l[k..];
  }

  /** One row's links: its nodes form a ring, and every other known timer is linked to itself. */
  ghost predicate RowOk(next: Links, prev: Links, known: set<Id>, r: seq<Id>) {
    && Ring.IsRing(next, prev, HEAD, r)
    && (forall x :: x in known && x !in r ==> x in next && next[x] == x && x in prev && prev[x] == x)
  }

  /** rt_list_remove on a timer that is linked in this row or only to itself. */
  lemma RowRemove(next: Links, prev: Links, known: set<Id>, r: seq<Id>, x: Id)
    requires RowOk(next, prev, known, r) && x in known && HEAD !in known
    ensures x in next && x in prev
    ensures var prev1 := prev[next[x] := prev[x]];
            x in prev1 && RowOk(next[prev1[x] := next[x]][x := x], prev1[x := x], known, Without(r, x))
  {
    hide Ring.IsRing;
    hide Without;
    if x in r {
      var i :| 0 <= i < |r| && r[i] == x;
      RowUnlinks(next, prev, known, r, i);
    } else {
      WithoutAbsent(r, x);
      assert next[x := x][x := x] == next && prev[x := x][x := x] == prev;
    }
  }

  lemma RowUnlinks(next: Links, prev: Links, known: set<Id>, r: seq<Id>, i: nat)
    requires RowOk(next, prev, known, r) && i < |r| && r[i] in known && HEAD !in known
    ensures r[i] in next && r[i] in prev
    ensures var x := r[i]; var prev1 := prev[next[x] := prev[x]];
            x in prev1 && RowOk(next[prev1[x] := next[x]][x := x], prev1[x := x], known, Without(r, x))
  {
    hide Ring.IsRing;
    hide Without;
    var x := r[i];
    Ring.Remove(next, prev, HEAD, r, i);
    WithoutOnce(next, prev, r, i);
    var n1, p1 := next[prev[x] := next[x]], prev[next[x] := prev[x]];
    Ring.Outside(n1, p1, HEAD, Without(r, x), x, x, x);
    Ring.Neighbours(next, prev, HEAD, r, i);
  }

  lemma WithoutOnce(next: Links, prev: Links, r: seq<Id>, i: nat)
    requires Ring.IsRing(next, prev, HEAD, r) && i < |r|
    ensures Without(r, r[i]) == r[..i] + r[i + 1..] && HEAD !in r
    ensures forall y :: y in Without(r, r[i]) <==> y in r && y != r[i]
  {
    WithoutSplit(r, i);
    WithoutMember(r, r[i]);
  }

  /** rt_list_insert_after on the head (k == 0) or on the node before position `k` of the row. */
  lemma RowInsertLinks(next: Links, prev: Links, known: set<Id>, r: seq<Id>, k: nat, x: Id)
    requires RowOk(next, prev, known, r) && k <= |r| && x in known && x !in r && HEAD !in known
    ensures var l := if k == 0 then HEAD else r[k - 1];
            l in next && RowOk(next[x := next[l]][l := x], prev[next[l] := x][x := l], known, r[..k] + [x] + r[k..])
  {
    hide Ring.IsRing;
    Ring.InsertAt(next, prev, HEAD, r, k, x);
    Ring.Nodes(next, prev, HEAD, r);
    if k > 0 {
      Ring.Neighbours(next, prev, HEAD, r, k - 1);
    }
    assert r == r[..k] + r[k..];
    var s := r[..k] + [x] + r[k..];
    assert forall y :: y in s <==> y in r || y == x;
  }

  // ---- The timer list -----------------------------------------------------------------------------------

  /** The test of the insertion loop: is a timer with time-out `t` due later than `tmo`? */
  predicate Later(t: int, tmo: int) { Sub(t, tmo) != 0 && Sub(t, tmo) < HALF }

  function NodeBefore(s: seq<Id>, j: nat): Id
    requires j <= |s|
  {
    if j == 0 then HEAD else s[j - 1]
  }

  function LastOf(s: seq<Id>): Id { NodeBefore(s, |s|) }

  /** The fields of a linked timer: a known timer, a wrapped deadline and a height. */
  ghost predicate Matches(x: Id, initTick: map<Id, int>, timeout: map<Id, int>, at: map<Id, int>, height: map<Id, nat>) {
    && x in initTick && x in timeout && x in at && timeout[x] == Wrapped(at[x])
    && x in height && 1 <= height[x]
  }

  ghost predicate AllMatch(l: seq<Id>, initTick: map<Id, int>, timeout: map<Id, int>, at: map<Id, int>, height: map<Id, nat>) {
    forall x :: x in l ==> Matches(x, initTick, timeout, at, height)
  }

  lemma MatchMore(l: seq<Id>, l': seq<Id>, initTick: map<Id, int>, timeout: map<Id, int>, at: map<Id, int>, height: map<Id, nat>,
                  x: Id, d: int, h: nat)
    requires AllMatch(l, initTick, timeout, at, height) && x in initTick && 1 <= h
    requires forall y :: y in l' <==> y in l || y == x
    ensures AllMatch(l', initTick, timeout[x := Wrapped(d)], at[x := d], height[x := h])
  {
  }

  /** Fewer timers, or another one's time-out changed. */
  lemma MatchLess(l: seq<Id>, l': seq<Id>, initTick: map<Id, int>, timeout: map<Id, int>, at: map<Id, int>, height: map<Id, nat>, x: Id, d: int)
    requires AllMatch(l, initTick, timeout, at, height) && (forall y :: y in l' ==> y in l) && x !in l'
    ensures AllMatch(l', initTick, timeout, at, height) && AllMatch(l', initTick, timeout[x := d], at, height)
  {
  }

  class TimerList {
    const levels: nat                  // RT_TIMER_SKIP_LIST_LEVEL
    var next: seq<Links>               // the links of each row
    var prev: seq<Links>
    var timeout: map<Id, int>          // timeout_tick
    var initTick: map<Id, int>         // init_tick
    var periodic: map<Id, bool>        // RT_TIMER_FLAG_PERIODIC
    var active: map<Id, bool>          // RT_TIMER_FLAG_ACTIVATED
    var tick: int                      // rt_tick
    var randomNr: bv32
    ghost var w: World
    ghost var height: map<Id, nat>

    /** Every row links the timers of `l` that reach it. */
    ghost predicate RowsOf(known: set<Id>, l: seq<Id>) reads `next, `prev, `height {
      && |next| == levels && |prev| == levels && HEAD !in known
      && forall r :: 0 <= r < levels ==> RowOk(next[r], prev[r], known, Row(l, height, levels - r))
    }

    ghost predicate Rows(l: seq<Id>) reads `next, `prev, `initTick, `height { RowsOf(initTick.Keys, l) }

    ghost predicate Fields() reads this {
      && levels >= 1 && tick == Wrapped(w.now) && w.period == initTick && w.cyclic == periodic
      && (forall x :: x in initTick ==> x in active && x in periodic)
      && AllMatch(w.list, initTick, timeout, w.at, height)
    }

    /** A timer is flagged active exactly while it is linked. */
    ghost predicate Flags() reads this {
      forall x :: x in initTick && x in active ==> (active[x] <==> x in w.list)
    }

    ghost predicate Valid(lo: int) reads this {
      Fields() && Flags() && Ordered(w, lo) && Rows(w.list)
    }

    /** _rt_timer_remove */
    method Unlink(x: Id, ghost l: seq<Id>)
      requires Rows(l) && x in initTick
      modifies `next, `prev
      ensures Rows(Without(l, x))
    {
      hide Ring.IsRing; hide Row;
      for r := 0 to levels
        invariant |next| == levels && |prev| == levels
        invariant forall q :: 0 <= q < r ==> RowOk(next[q], prev[q], initTick.Keys, Without(Row(l, height, levels - q), x))
        invariant forall q :: r <= q < levels ==> RowOk(next[q], prev[q], initTick.Keys, Row(l, height, levels - q))
      {
        RowRemove(next[r], prev[r], initTick.Keys, Row(l, height, levels - r), x);
        prev := prev[r := prev[r][next[r][x] := prev[r][x]]];
        next := next[r := next[r][prev[r][x] := next[r][x]]];
        next := next[r := next[r][x := x]];
        prev := prev[r := prev[r][x := x]];
      }
      forall r | 0 <= r < levels ensures RowOk(next[r], prev[r], initTick.Keys, Row(Without(l, x), height, levels - r)) {
        RowWithout(l, height, levels - r, x);
      }
    }

    /** The inner loop of the search: from the node before position `j0` to the last timer of the
        row that is not due later. */
    method SearchRow(r: nat, from: Id, tmo: int, ghost a: seq<Id>, ghost b: seq<Id>, ghost j0: nat) returns (cur: Id)
      requires r < |next| && r < |prev| && Ring.IsRing(next[r], prev[r], HEAD, a + b)
      requires j0 <= |a| && from == NodeBefore(a, j0)
      requires forall i :: 0 <= i < |a| ==> a[i] in timeout && !Later(timeout[a[i]], tmo)
      requires forall i :: 0 <= i < |b| ==> b[i] in timeout && Later(timeout[b[i]], tmo)
      ensures cur == LastOf(a)
    {
      hide Ring.Path; hide Sub;
      ghost var s, j := a + b, j0;
      Ring.PathLast(next[r], prev[r], HEAD, s, HEAD);
      cur := from;
      while cur != prev[r][HEAD]
        invariant j0 <= j <= |a| && cur == NodeBefore(a, j)
        decreases |a| - j
      {
        Advance(next[r], prev[r], s, j);
        assert j < |s| ==> s[j] == if j < |a| then a[j] else b[j - |a|];
        assert j == |s| ==> cur == LastOf(s);
        var p := next[r][cur];
        if Sub(timeout[p], tmo) == 0 {
          // due at the same tick: stay behind it
        } else if Sub(timeout[p], tmo) < HALF {
          break;
        }
        cur := p;
        j := j + 1;
      }
      assert j < |a| ==> s[j] == a[j];
      AtEnd(next[r], prev[r], s, a, j);
    }

    lemma Advance(n: Links, p: Links, s: seq<Id>, j: nat)
      requires Ring.IsRing(n, p, HEAD, s) && j <= |s|
      ensures NodeBefore(s, j) in n && n[NodeBefore(s, j)] == if j < |s| then s[j] else HEAD
    {
      Ring.Nodes(n, p, HEAD, s);
      if j > 0 {
        Ring.Next(n, p, HEAD, s, j - 1);
      }
    }

    lemma AtEnd(n: Links, p: Links, s: seq<Id>, a: seq<Id>, j: nat)
      requires Ring.IsRing(n, p, HEAD, s) && j <= |a| <= |s| && a == s[..|a|]
      requires HEAD in p && p[HEAD] == LastOf(s)
      ensures NodeBefore(a, j) == p[HEAD] ==> j == |a|
    {
    }

    /** The search of rt_timer_start: in every row, the last timer not due later than `tmo`.  Each
        row is entered at the node where the row above was left. */
    method Search(tmo: int, ghost l: seq<Id>, ghost k: nat) returns (heads: seq<Id>)
      requires Rows(l) && k <= |l|
      requires forall i :: 0 <= i < |l| ==> l[i] in timeout && (Later(timeout[l[i]], tmo) <==> k <= i)
      ensures |heads| == levels
      ensures forall r :: 0 <= r < levels ==> heads[r] == LastOf(Row(l[..k], height, levels - r))
    {
      hide Ring.IsRing; hide Row; hide Later;
      heads := [];
      var from := HEAD;
      for r := 0 to levels
        invariant |heads| == r
        invariant forall q :: 0 <= q < r ==> heads[q] == LastOf(Row(l[..k], height, levels - q))
        invariant from == if r == 0 then HEAD else LastOf(Row(l[..k], height, levels - r + 1))
      {
        ghost var a, b := Row(l[..k], height, levels - r), Row(l[k..], height, levels - r);
        assert l == l[..k] + l[k..];
        RowConcat(l[..k], l[k..], height, levels - r);
        ghost var j0 := Entry(l[..k], levels - r, r > 0);
        RowTested(l[..k], levels - r, tmo, false);
        RowTested(l[k..], levels - r, tmo, true);
        from := SearchRow(r, from, tmo, a, b, j0);
        heads := heads + [from];
      }
    }

    /** The node at which a row is entered is linked in it. */
    lemma Entry(l: seq<Id>, lvl: nat, above: bool) returns (j: nat)
      ensures j <= |Row(l, height, lvl)|
      ensures NodeBefore(Row(l, height, lvl), j) == if above then LastOf(Row(l, height, lvl + 1)) else HEAD
    {
      RowMember(l, height, lvl);
      RowMember(l, height, lvl + 1);
      var up := Row(l, height, lvl + 1);
      if above && up != [] {
        var y := up[|up| - 1];
        assert y in up;
        assert y in Row(l, height, lvl);
        var i :| 0 <= i < |Row(l, height, lvl)| && Row(l, height, lvl)[i] == y;
        j := i + 1;
      } else {
        j := 0;
      }
    }

    lemma RowTested(l: seq<Id>, lvl: nat, tmo: int, later: bool)
      requires forall i :: 0 <= i < |l| ==> l[i] in timeout && (Later(timeout[l[i]], tmo) <==> later)
      ensures var r := Row(l, height, lvl); forall i :: 0 <= i < |r| ==> r[i] in timeout && (Later(timeout[r[i]], tmo) <==> later)
    {
      RowMember(l, height, lvl);
    }

    /** rt_list_insert_after in row `r`. */
    method LinkRow(r: nat, x: Id, at: Id, ghost a: seq<Id>, ghost b: seq<Id>)
      requires r < |next| && r < |prev| && RowOk(next[r], prev[r], initTick.Keys, a + b)
      requires at == LastOf(a) && x in initTick && x !in a + b && HEAD !in initTick
      modifies `next, `prev
      ensures |next| == |old(next)| && |prev| == |old(prev)| && RowOk(next[r], prev[r], initTick.Keys, a + [x] + b)
      ensures forall q :: 0 <= q < |next| && q != r ==> next[q] == old(next[q])
      ensures forall q :: 0 <= q < |prev| && q != r ==> prev[q] == old(prev[q])
    {
      hide RowOk;
      assert (a + b)[..|a|] == a && (a + b)[|a|..] == b && (|a| > 0 ==> (a + b)[|a| - 1] == a[|a| - 1]);
      RowInsertLinks(next[r], prev[r], initTick.Keys, a + b, |a|, x);
      prev := prev[r := prev[r][next[r][at] := x]];
      next := next[r := next[r][x := next[r][at]]];
      next := next[r := next[r][at := x]];
      prev := prev[r := prev[r][x := at]];
    }

    /** The end of rt_timer_start: links the timer into the bottom row and, depending on the bits of
        the start counter, into some rows above it. */
    method LinkIn(x: Id, heads: seq<Id>, ghost l: seq<Id>, ghost k: nat) returns (ghost h: nat)
      requires Rows(l) && levels >= 1 && x in initTick && x !in l && k <= |l|
      requires |heads| == levels && forall r :: 0 <= r < levels ==> heads[r] == LastOf(Row(l[..k], height, levels - r))
      modifies `next, `prev, `height, `randomNr
      ensures 1 <= h && height == old(height)[x := h] && Rows(l[..k] + [x] + l[k..])
    {
      hide RowOk; hide Row;
      ghost var h0 := height;
      RowParts(l, k, x);
      randomNr := randomNr + 1;
      var tst := randomNr;
      LinkRow(levels - 1, x, heads[levels - 1], Row(l[..k], h0, 1), Row(l[k..], h0, 1));
      h := 1;
      var lvl := 2;
      while lvl <= levels
        invariant 2 <= lvl <= levels + 1 && h == lvl - 1 && |next| == levels && |prev| == levels
        invariant forall q :: 0 <= q < levels - h ==> RowOk(next[q], prev[q], initTick.Keys, Row(l[..k], h0, levels - q) + Row(l[k..], h0, levels - q))
        invariant forall q :: levels - h <= q < levels ==> RowOk(next[q], prev[q], initTick.Keys, Row(l[..k], h0, levels - q) + [x] + Row(l[k..], h0, levels - q))
      {
        if tst & 3 != 0 {
          break;
        }
        LinkRow(levels - lvl, x, heads[levels - lvl], Row(l[..k], h0, lvl), Row(l[k..], h0, lvl));
        h := h + 1;
        tst := tst >> 2;
        lvl := lvl + 1;
      }
      height := h0[x := h];
      forall r | 0 <= r < levels ensures RowOk(next[r], prev[r], initTick.Keys, Row(l[..k] + [x] + l[k..], height, levels - r)) {
        RowInsert(l, h0, levels - r, k, x, h);
        assert Row(l[..k], h0, levels - r) + [] + Row(l[k..], h0, levels - r) == Row(l[..k], h0, levels - r) + Row(l[k..], h0, levels - r);
      }
    }

    lemma RowParts(l: seq<Id>, k: nat, x: Id)
      requires k <= |l| && x !in l
      ensures forall lvl: nat :: Row(l, height, lvl) == Row(l[..k], height, lvl) + Row(l[k..], height, lvl)
                && x !in Row(l[..k], height, lvl) + Row(l[k..], height, lvl)
    {
      forall lvl: nat ensures Row(l, height, lvl) == Row(l[..k], height, lvl) + Row(l[k..], height, lvl)
                && x !in Row(l[..k], height, lvl) + Row(l[k..], height, lvl) {
        assert l == l[..k] + l[k..];
        RowConcat(l[..k], l[k..], height, lvl);
        RowMember(l, height, lvl);
      }
    }

    /** Takes a timer off the list, as rt_timer_start and rt_timer_stop begin. */
    method Deactivate(x: Id, ghost lo: int)
      requires Valid(lo) && x in initTick
      modifies `next, `prev, `active, `w
      ensures Valid(lo) && w == Stop(old(w), x) && x !in w.list
    {
      hide Ordered; hide RowsOf; hide Without; hide AllMatch;
      StopOrdered(w, x, lo);
      MatchLess(w.list, Stop(w, x).list, initTick, timeout, w.at, height, x, 0);
      Unlink(x, w.list);
      active := active[x := false];
      w := Stop(w, x);
    }

    /** rt_timer_start, treated as atomic. */
    method StartTimer(x: Id, ghost lo: int)
      requires Valid(lo) && w.now <= lo <= w.now + 1 && x in initTick && 1 <= initTick[x] < HALF
      modifies `next, `prev, `height, `randomNr, `timeout, `active, `w
      ensures x in initTick && x in periodic && Known(old(w).list, old(w).at) && Valid(lo)
      ensures w == Start(old(w), x, initTick[x], periodic[x])
      ensures initTick == old(initTick) && periodic == old(periodic) && tick == old(tick)
    {
      KnownList(lo);
      StartAfterStop(w, x, initTick[x], periodic[x]);
      hide Ordered; hide RowsOf; hide Start; hide Stop; hide Flags;
      Deactivate(x, lo);
      Arm(x, lo);
    }

    lemma StartAfterStop(v: World, x: Id, d: int, cyclic: bool)
      requires Known(v.list, v.at)
      ensures Known(Stop(v, x).list, v.at) && Start(Stop(v, x), x, d, cyclic) == Start(v, x, d, cyclic)
    {
      WithoutMember(v.list, x);
      WithoutAbsent(Without(v.list, x), x);
    }

    lemma KnownList(lo: int)
      requires Ordered(w, lo)
      ensures Known(w.list, w.at)
    {
    }

    /** The second half of rt_timer_start: time-out, place, links and flag. */
    method Arm(x: Id, ghost lo: int)
      requires Valid(lo) && x !in w.list && w.now <= lo <= w.now + 1 && x in initTick && 1 <= initTick[x] < HALF
      modifies `next, `prev, `height, `randomNr, `timeout, `active, `w
      ensures x in periodic && Known(old(w).list, old(w).at) && Valid(lo) && w == Start(old(w), x, initTick[x], periodic[x])
    {
      hide Ordered; hide RowsOf; hide Start; hide AllMatch; hide Wrapped;
      KnownList(lo);
      StartShape(w, x, initTick[x], periodic[x]);
      StartOrdered(w, x, initTick[x], periodic[x], lo);
      WrapAdd(w.now, initTick[x]);
      ghost var w1, tmo := Start(w, x, initTick[x], periodic[x]), timeout;
      MatchLess(w.list, w.list, initTick, timeout, w.at, height, x, Wrapped(tick + initTick[x]));
      timeout := timeout[x := Wrapped(tick + initTick[x])];
      Place(x, lo);
      active := active[x := true];
      MatchMore(w.list, w1.list, initTick, tmo, w.at, old(height), x, w.now + initTick[x], height[x]);
      w := w1;
    }

    lemma StartShape(v: World, x: Id, d: int, cyclic: bool)
      requires Known(v.list, v.at)
      ensures var r := Start(v, x, d, cyclic);
              && r.now == v.now && r.at == v.at[x := v.now + d] && r.log == v.log
              && (x in v.period && v.period[x] == d ==> r.period == v.period)
              && (x in v.cyclic && v.cyclic[x] == cyclic ==> r.cyclic == v.cyclic)
    {
    }

    method Place(x: Id, ghost lo: int)
      requires Fields() && Ordered(w, lo) && w.now <= lo && x in initTick && 1 <= initTick[x] < HALF && x !in w.list
      requires Rows(w.list) && x in timeout && timeout[x] == Wrapped(tick + initTick[x])
      modifies `next, `prev, `height, `randomNr
      ensures x in periodic && Known(w.list, w.at) && Rows(Start(w, x, initTick[x], periodic[x]).list)
      ensures x in height && 1 <= height[x] && height == old(height)[x := height[x]]
    {
      hide RowOk; hide Row; hide Later; hide Insert; hide Without;
      KnownList(lo);
      WithoutAbsent(w.list, x);
      ghost var k := Position(x, lo);
      var heads := Search(timeout[x], w.list, k);
      ghost var h := LinkIn(x, heads, w.list, k);
    }

    /** Inside the window the wrapping test finds the place of stable sorted insertion. */
    lemma Position(x: Id, lo: int) returns (k: nat)
      requires Fields() && Ordered(w, lo) && w.now <= lo && x in initTick && 1 <= initTick[x] < HALF && x !in w.list
      requires x in timeout && timeout[x] == Wrapped(tick + initTick[x])
      ensures var l, at := w.list, w.at[x := w.now + initTick[x]];
              && k <= |l| && Known(l, at) && Insert(l, at, x) == l[..k] + [x] + l[k..]
              && forall i :: 0 <= i < |l| ==> l[i] in timeout && (Later(timeout[l[i]], timeout[x]) <==> k <= i)
    {
      hide Later; hide Insert;
      var l, at := w.list, w.at[x := w.now + initTick[x]];
      assert Known(l, at) && Sorted(l, at);
      WrapAdd(w.now, initTick[x]);
      forall i | 0 <= i < |l| ensures Matches(l[i], initTick, timeout, w.at, height) {
        assert l[i] in w.list;
      }
      k := InsertPosition(l, at, x);
      Tested(l, k, at, x, lo);
    }

    lemma Tested(l: seq<Id>, k: nat, at: map<Id, int>, x: Id, lo: int)
      requires Known(l, at) && x in at && x in timeout && k <= |l| && timeout[x] == Wrapped(at[x])
      requires w.now <= lo && w.now <= at[x] < w.now + HALF && Within(l, at, lo, w.now + HALF)
      requires forall i :: 0 <= i < |l| ==> l[i] in timeout && timeout[l[i]] == Wrapped(at[l[i]])
      requires forall i :: 0 <= i < k ==> at[l[i]] <= at[x]
      requires forall i :: k <= i < |l| ==> at[x] < at[l[i]]
      ensures forall i :: 0 <= i < |l| ==> l[i] in timeout && (Later(timeout[l[i]], timeout[x]) <==> k <= i)
    {
      forall i | 0 <= i < |l| ensures Later(timeout[l[i]], timeout[x]) <==> k <= i {
        Compare(at[l[i]], at[x]);
      }
    }

    /** rt_timer_stop */
    method StopTimer(x: Id, ghost lo: int) returns (ok: bool)
      requires Valid(lo) && x in initTick
      modifies this
      ensures ok <==> x in old(w.list)
      ensures Valid(lo) && w == Stop(old(w), x)
      ensures initTick == old(initTick) && periodic == old(periodic) && tick == old(tick)
    {
      hide Ordered; hide RowsOf;
      if !active[x] {
        WithoutAbsent(w.list, x);
        return false;
      }
      hide Stop;
      Deactivate(x, lo);
      return true;
    }

    /** One turn of the loop of rt_timer_check on the first timer, whose function leaves timers alone. */
    method FireTimer(x: Id)
      requires Valid(w.now) && w.list != [] && x == w.list[0] && w.at[x] <= w.now
      modifies `next, `prev, `height, `randomNr, `timeout, `active, `w
      ensures Ordered(old(w), old(w).now) && Valid(w.now) && w == FireFirst(old(w))
      ensures initTick == old(initTick) && periodic == old(periodic) && tick == old(tick)
    {
      FirstOff(x);
      hide Ordered; hide RowsOf; hide Start; hide Known; hide AllMatch;
      Unlink(x, w.list);
      w := w.(list := w.list[1..], log := w.log + [Firing(x, w.now)]);
      if periodic[x] && active[x] {
        active := active[x := false];
        StartTimer(x, w.now);
      } else {
        active := active[x := false];
      }
    }

    lemma FirstOff(x: Id)
      requires Fields() && Ordered(w, w.now) && w.list != [] && x == w.list[0]
      ensures var t := w.list[1..];
              && Without(w.list, x) == t && (forall y :: y in t <==> y in w.list && y != x)
              && Ordered(w.(list := t, log := w.log + [Firing(x, w.now)]), w.now)
      ensures Known(w.list, w.at) && Matches(x, initTick, timeout, w.at, height)
      ensures AllMatch(w.list[1..], initTick, timeout, w.at, height)
    {
      assert x in w.list;
      KnownList(w.now);
      hide Ordered; hide Without;
      TailOrdered(w, w.now, w.log + [Firing(x, w.now)]);
    }

    /** rt_timer_check: the bottom row is inspected from its front. */
    method CheckTimers()
      requires Valid(w.now)
      modifies this
      ensures Ordered(old(w), old(w).now) && w == Check(old(w)) && Valid(w.now + 1)
      ensures initTick == old(initTick) && periodic == old(periodic) && tick == old(tick)
    {
      ghost var w0 := w;
      var more := true;
      while more
        invariant Valid(w.now) && w.now == w0.now && Ordered(w0, w0.now) && Check(w) == Check(w0)
        invariant initTick == old(initTick) && periodic == old(periodic) && tick == old(tick)
        invariant !more ==> w.list == [] || w.now < w.at[w.list[0]]
        decreases more, |Ripe(w.list, w.at, w.now)|
      {
        BottomRow();
        if next[levels - 1][HEAD] == HEAD {
          more := false;
        } else {
          var t := next[levels - 1][HEAD];
          FirstDue(t);
          if Sub(tick, timeout[t]) < HALF {
            FireFirstKeeps(w);
            FireTimer(t);
          } else {
            more := false;
          }
        }
      }
      NoneRipe(w.list, w.at, w.now);
    }

    lemma BottomRow()
      requires Fields() && Rows(w.list)
      ensures HEAD in next[levels - 1] && next[levels - 1][HEAD] == if w.list == [] then HEAD else w.list[0]
      ensures w.list != [] ==> w.list[0] != HEAD
    {
      forall i | 0 <= i < |w.list| ensures w.list[i] in height && height[w.list[i]] >= 1 {
        assert Matches(w.list[i], initTick, timeout, w.at, height);
      }
      RowBottom(w.list, height);
      Ring.Nodes(next[levels - 1], prev[levels - 1], HEAD, w.list);
    }

    lemma FirstDue(t: Id)
      requires Fields() && Ordered(w, w.now) && w.list != [] && t == w.list[0]
      ensures t in timeout && t in w.at && (Sub(tick, timeout[t]) < HALF <==> w.at[t] <= w.now)
    {
      assert w.list[0] in w.list;
      Compare(w.now, w.at[t]);
    }

    /** rt_system_timer_init with the tick counter at `t0`. */
    constructor (lvls: nat, t0: nat)
      requires lvls >= 1
      ensures Valid(w.now + 1) && levels == lvls && initTick == map[]
      ensures w == World(t0, [], map[], map[], map[], [])
    {
      levels := lvls;
      next := seq(lvls, _ => map[HEAD := HEAD]);
      prev := seq(lvls, _ => map[HEAD := HEAD]);
      timeout, initTick, periodic, active := map[], map[], map[], map[];
      tick := Wrapped(t0);
      randomNr := 0;
      height := map[];
      w := World(t0, [], map[], map[], map[], []);
    }

    /** rt_timer_init */
    method Register(x: Id, d: int, cyclic: bool, ghost lo: int)
      requires Valid(lo) && x != HEAD && x !in initTick && 0 <= d < WRAP
      modifies `next, `prev, `timeout, `initTick, `periodic, `active, `w
      ensures Valid(lo) && initTick == old(initTick)[x := d] && periodic == old(periodic)[x := cyclic]
      ensures w == old(w).(period := initTick, cyclic := periodic)
    {
      hide Ordered; hide AllMatch; hide Wrapped; hide RowsOf;
      ghost var w1 := w.(period := initTick[x := d], cyclic := periodic[x := cyclic]);
      Unlinked(x, lo, w1);
      InitLinks(x, w.list);
      SetFields(x, d, cyclic, w1);
    }

    /** The timer's own fields, and the flag that it is not active. */
    method SetFields(x: Id, d: int, cyclic: bool, ghost w1: World)
      requires Fields() && Flags() && x !in w.list && RowsOf(initTick.Keys + {x}, w.list)
      requires w1 == w.(period := initTick[x := d], cyclic := periodic[x := cyclic])
      requires AllMatch(w.list, initTick[x := d], timeout[x := 0], w.at, height)
      modifies `timeout, `initTick, `periodic, `active, `w
      ensures Fields() && Flags() && Rows(w.list) && w == w1
      ensures initTick == old(initTick)[x := d] && periodic == old(periodic)[x := cyclic]
    {
      hide AllMatch; hide Wrapped; hide RowsOf;
      assert initTick.Keys + {x} == initTick[x := d].Keys;
      timeout, initTick, periodic, active := timeout[x := 0], initTick[x := d], periodic[x := cyclic], active[x := false];
      w := w1;
    }

    /** rt_timer_control with RT_TIMER_CTRL_SET_TIME: only the next start uses the new time. */
    method SetTime(x: Id, d: int, ghost lo: int)
      requires Valid(lo) && x in initTick && 0 <= d < WRAP && (x in w.list && periodic[x] ==> 1 <= d < HALF)
      modifies `initTick, `w
      ensures x in old(periodic) && Valid(lo) && initTick == old(initTick)[x := d]
      ensures w == old(w).(period := old(w).period[x := d], cyclic := old(w).cyclic[x := old(periodic)[x]])
    {
      Reconfigured(x, d, periodic[x], lo);
      hide Ordered; hide AllMatch; hide Wrapped; hide RowOk;
      assert initTick[x := d].Keys == initTick.Keys;
      ghost var w1 := w.(period := w.period[x := d], cyclic := w.cyclic[x := periodic[x]]);
      initTick := initTick[x := d];
      w := w1;
    }

    /** RT_TIMER_CTRL_SET_ONESHOT and RT_TIMER_CTRL_SET_PERIODIC. */
    method SetMode(x: Id, cyclic: bool, ghost lo: int)
      requires Valid(lo) && x in initTick && (x in w.list && cyclic ==> 1 <= initTick[x] < HALF)
      modifies `periodic, `w
      ensures x in initTick && Valid(lo) && periodic == old(periodic)[x := cyclic]
      ensures w == old(w).(period := old(w).period[x := initTick[x]], cyclic := old(w).cyclic[x := cyclic])
    {
      Reconfigured(x, initTick[x], cyclic, lo);
      hide Ordered; hide AllMatch; hide Wrapped; hide RowOk;
      ghost var w1 := w.(period := w.period[x := initTick[x]], cyclic := w.cyclic[x := cyclic]);
      assert initTick[x := initTick[x]] == initTick;
      periodic := periodic[x := cyclic];
      w := w1;
    }

    lemma Reconfigured(x: Id, d: int, cyclic: bool, lo: int)
      requires Fields() && Ordered(w, lo) && x in initTick && (x in w.list && cyclic ==> 1 <= d < HALF)
      ensures Ordered(w.(period := w.period[x := d], cyclic := w.cyclic[x := cyclic]), lo)
      ensures AllMatch(w.list, initTick[x := d], timeout, w.at, height)
      ensures periodic[x := periodic[x]] == periodic
    {
      ConfigureOrdered(w, x, d, cyclic, lo);
      forall y | y in w.list ensures Matches(y, initTick[x := d], timeout, w.at, height) {
        assert Matches(y, initTick, timeout, w.at, height);
      }
    }

    /** A timer that was never initialised is not linked, so its fields are free to set. */
    lemma Unlinked(x: Id, lo: int, w1: World)
      requires Fields() && Ordered(w, lo) && x !in initTick
      requires w1.now == w.now && w1.list == w.list && w1.at == w.at && w1.log == w.log
      requires forall y :: y in initTick ==> y in w1.period && w1.period[y] == initTick[y] && y in w1.cyclic && w1.cyclic[y] == periodic[y]
      requires x in w1.period
      ensures x !in w.list && Ordered(w1, lo) && AllMatch(w.list, w1.period, timeout[x := 0], w.at, height)
    {
      hide Distinct;
      hide Sorted;
      forall y | y in w.list
        ensures y in initTick && Matches(y, initTick, timeout, w.at, height)
      {
        assert Matches(y, initTick, timeout, w.at, height);
      }
      assert w.cyclic == periodic && w.period == initTick;
      forall y | y in w1.list
        ensures Pending(w1, lo, y)
      {
        OrderedElim(w, lo, y);
      }
      OrderedIntro(w1, lo);
    }

    /** rt_list_init on the links of a timer in every row. */
    method InitLinks(x: Id, ghost l: seq<Id>)
      requires Rows(l) && x != HEAD && x !in l
      modifies `next, `prev
      ensures RowsOf(initTick.Keys + {x}, l)
    {
      hide Ring.IsRing; hide Row;
      for r := 0 to levels
        invariant |next| == levels && |prev| == levels
        invariant forall q :: 0 <= q < r ==> RowOk(next[q], prev[q], initTick.Keys + {x}, Row(l, height, levels - q))
        invariant forall q :: r <= q < levels ==> RowOk(next[q], prev[q], initTick.Keys, Row(l, height, levels - q))
      {
        RowMember(l, height, levels - r);
        Ring.Outside(next[r], prev[r], HEAD, Row(l, height, levels - r), x, x, x);
        next := next[r := next[r][x := x]];
        prev := prev[r := prev[r][x := x]];
      }
    }

    /** rt_tick_increase, as far as it concerns timers. */
    method TickIncrease()
      requires Valid(w.now + 1)
      modifies this
      ensures Inv(old(w)) && w == Step(old(w), Tick) && w.now == old(w.now) + 1 && Valid(w.now + 1)
      ensures tick == Wrapped(w.now) && initTick == old(initTick) && periodic == old(periodic)
    {
      hide RowsOf; hide Check;
      WrapAdd(w.now, 1);
      tick := Wrapped(tick + 1);
      w := w.(now := w.now + 1);
      CheckFires(w);
      CheckTimers();
    }

    /** rt_timer_list_next_timeout: the earliest deadline, or RT_TICK_MAX. */
    method NextTimeout() returns (t: int)
      requires Valid(w.now + 1)
      ensures w.list == [] ==> t == WRAP - 1
      ensures w.list != [] ==> w.list[0] in w.at && t == Wrapped(w.at[w.list[0]])
      ensures forall i :: 0 <= i < |w.list| ==> w.list[i] in w.at && w.list[0] in w.at && w.at[w.list[0]] <= w.at[w.list[i]]
    {
      BottomRow();
      if next[levels - 1][HEAD] == HEAD {
        return WRAP - 1;
      }
      var x := next[levels - 1][HEAD];
      assert Matches(x, initTick, timeout, w.at, height);
      t := timeout[x];
    }
  }
}
