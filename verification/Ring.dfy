/** The circular doubly linked list of rtservice.h, the structure under every kernel queue:
    what the pointer updates of insertion and removal mean for the sequence of linked nodes. */
module Ring {

  import opened Lists

  type Links = map<int, int>

  /** Following `next` from `a` visits exactly `s` and then `b`, and `prev` leads back. */
  ghost predicate Path(next: Links, prev: Links, a: int, s: seq<int>, b: int)
    decreases |s|
  {
    var first := if s == [] then b else s[0];
    && a in next && next[a] == first && first in prev && prev[first] == a
    && (s != [] ==> Path(next, prev, s[0], s[1..], b))
  }

  /** The list with head node `h` holds the nodes `s`. */
  ghost predicate IsRing(next: Links, prev: Links, h: int, s: seq<int>) {
    Path(next, prev, h, s, h) && Distinct(s) && h !in s
  }

  lemma {:induction false} PathCut(next: Links, prev: Links, a: int, s: seq<int>, x: int, t: seq<int>, b: int)
    ensures Path(next, prev, a, s + [x] + t, b) <==> Path(next, prev, a, s, x) && Path(next, prev, x, t, b)
    decreases |s|
  {
    if s == [] {
      assert ([] + [x] + t)[1..] == t && s + [x] + t == [] + [x] + t;
    } else {
      assert (s + [x] + t)[1..] == s[1..] + [x] + t;
      PathCut(next, prev, s[0], s[1..], x, t, b);
    }
  }

  /** A path only depends on the links it runs over. */
  lemma {:induction false} PathFrame(next: Links, prev: Links, next': Links, prev': Links, a: int, s: seq<int>, b: int)
    requires Path(next, prev, a, s, b)
    requires a in next' && next'[a] == next[a] && b in prev' && b in prev && prev'[b] == prev[b]
    requires forall x :: x in s && x in next && x in prev ==> x in next' && next'[x] == next[x] && x in prev' && prev'[x] == prev[x]
    ensures Path(next', prev', a, s, b)
    decreases |s|
  {
    if s != [] {
      PathNodes(next, prev, a, s, b);
      PathFrame(next, prev, next', prev', s[0], s[1..], b);
    }
  }

  lemma {:induction false} PathNodes(next: Links, prev: Links, a: int, s: seq<int>, b: int)
    requires Path(next, prev, a, s, b)
    ensures forall x :: x in s ==> x in next && x in prev
    ensures a in next && b in prev
    decreases |s|
  {
    if s != [] {
      PathNodes(next, prev, s[0], s[1..], b);
      assert s == [s[0]] + s[1..];
    }
  }

  /** rt_list_insert_after on the head. */
  lemma InsertFront(next: Links, prev: Links, h: int, s: seq<int>, n: int)
    requires IsRing(next, prev, h, s) && n != h && n !in s
    ensures IsRing(next[n := next[h]][h := n], prev[n := h][next[h] := n], h, [n] + s)
  {
    var next', prev' := next[n := next[h]][h := n], prev[n := h][next[h] := n];
    if s != [] {
      PathNodes(next, prev, h, s, h);
      if |s| > 1 { PathNodes(next, prev, s[0], s[1..], h); }
      PathFrame(next, prev, next', prev', s[0], s[1..], h);
    }
    assert ([n] + s)[1..] == s;
  }

  /** The pointer updates of rt_list_remove join what was before the node to what was behind it. */
  lemma {:induction false} Relink(next: Links, prev: Links, a: int, s: seq<int>, x: int, t: seq<int>, b: int)
    requires Path(next, prev, a, s, x) && Path(next, prev, x, t, b)
    requires Distinct(s + [x] + t) && a !in s + [x] + t && b !in s + [x] + t
    ensures x in prev && x in next
    ensures Path(next[prev[x] := next[x]], prev[next[x] := prev[x]], a, s + t, b)
    ensures prev[x] == if s == [] then a else s[|s| - 1]
    decreases |s|
  {
    PathNodes(next, prev, a, s, x);
    PathNodes(next, prev, x, t, b);
    var next', prev' := next[prev[x] := next[x]], prev[next[x] := prev[x]];
    if s == [] {
      assert s + t == t;
      if t != [] {
        assert (s + [x] + t)[1..] == t;
        DistinctHead(s + [x] + t);
        DistinctHead(t);
        PathFrame(next, prev, next', prev', t[0], t[1..], b);
      }
    } else {
      assert (s + [x] + t)[1..] == s[1..] + [x] + t && (s + t)[1..] == s[1..] + t;
      DistinctHead(s + [x] + t);
      Relink(next, prev, s[0], s[1..], x, t, b);
    }
  }

  lemma Remove(next: Links, prev: Links, h: int, s: seq<int>, k: nat)
    requires IsRing(next, prev, h, s) && k < |s|
    ensures s[k] in prev && s[k] in next && next[s[k]] != s[k] && prev[s[k]] != s[k]
    ensures IsRing(next[prev[s[k]] := next[s[k]]], prev[next[s[k]] := prev[s[k]]], h, s[..k] + s[k + 1..])
  {
    var x, a, b := s[k], s[..k], s[k + 1..];
    assert s == a + [x] + b;
    PathCut(next, prev, h, a, x, b, h);
    Relink(next, prev, h, a, x, b, h);
  }

  /** Writing the links of a node outside the list changes nothing. */
  lemma Outside(next: Links, prev: Links, h: int, s: seq<int>, x: int, v: int, w: int)
    requires IsRing(next, prev, h, s) && x != h && x !in s
    ensures IsRing(next[x := v], prev[x := w], h, s)
  {
    PathNodes(next, prev, h, s, h);
    PathFrame(next, prev, next[x := v], prev[x := w], h, s, h);
  }

  /** Every linked node, and the head, has both links. */
  lemma Nodes(next: Links, prev: Links, h: int, s: seq<int>)
    requires IsRing(next, prev, h, s)
    ensures h in next && h in prev && next[h] == (if s == [] then h else s[0])
    ensures forall i :: 0 <= i < |s| ==> s[i] in next && s[i] in prev
  {
    PathNodes(next, prev, h, s, h);
    forall i | 0 <= i < |s| ensures s[i] in next && s[i] in prev {
      assert s[i] in s;
    }
  }

  /** The successor of the node at position `k`. */
  lemma Next(next: Links, prev: Links, h: int, s: seq<int>, k: nat)
    requires IsRing(next, prev, h, s) && k < |s|
    ensures s[k] in next && next[s[k]] == if k + 1 < |s| then s[k + 1] else h
  {
    assert s == s[..k] + [s[k]] + s[k + 1..];
    PathCut(next, prev, h, s[..k], s[k], s[k + 1..], h);
  }

  /** The head's predecessor is the last node. */
  lemma {:induction false} PathLast(next: Links, prev: Links, a: int, s: seq<int>, b: int)
    requires Path(next, prev, a, s, b)
    ensures b in prev && prev[b] == if s == [] then a else s[|s| - 1]
    decreases |s|
  {
    if s != [] {
      PathLast(next, prev, s[0], s[1..], b);
    }
  }

  /** The links of rt_list_insert_after on node `l`, from which `t` leads to `b`. */
  lemma InsertBehind(next: Links, prev: Links, l: int, t: seq<int>, b: int, n: int)
    requires Path(next, prev, l, t, b) && n != l && n != b && n !in t && Distinct(t) && l !in t && b !in t
    ensures Path(next[n := next[l]][l := n], prev[next[l] := n][n := l], l, [n] + t, b)
  {
    var next', prev' := next[n := next[l]][l := n], prev[next[l] := n][n := l];
    PathNodes(next, prev, l, t, b);
    if t != [] {
      DistinctHead(t);
      PathFrame(next, prev, next', prev', t[0], t[1..], b);
    }
    assert ([n] + t)[1..] == t;
  }

  lemma DistinctInsert(s: seq<int>, k: nat, n: int)
    requires Distinct(s) && k <= |s| && n !in s
    ensures Distinct(s[..k] + [n] + s[k..])
  {
    var r := s[..k] + [n] + s[k..];
    assert forall i :: 0 <= i < |r| ==> r[i] == if i < k then s[i] else if i == k then n else s[i - 1];
  }

  lemma DistinctParts(a: seq<int>, l: int, t: seq<int>)
    requires Distinct(a + [l] + t)
    ensures Distinct(t) && l !in t && l !in a && forall x :: x in t ==> x !in a
  {
    var s := a + [l] + t;
    assert forall i :: 0 <= i < |a| ==> s[i] == a[i];
    assert s[|a|] == l;
    assert forall i :: 0 <= i < |t| ==> s[|a| + 1 + i] == t[i];
  }

  /** rt_list_insert_after on the head (k == 0) or on the node before position `k`. */
  lemma InsertAt(next: Links, prev: Links, h: int, s: seq<int>, k: nat, n: int)
    requires IsRing(next, prev, h, s) && k <= |s| && n != h && n !in s
    ensures var l := if k == 0 then h else s[k - 1];
            l in next && IsRing(next[n := next[l]][l := n], prev[next[l] := n][n := l], h, s[..k] + [n] + s[k..])
  {
    DistinctInsert(s, k, n);
    PathNodes(next, prev, h, s, h);
    var r := s[..k] + [n] + s[k..];
    assert h !in r;
    if k == 0 {
      InsertBehind(next, prev, h, s, h, n);
      assert r == [n] + s;
    } else {
      var a, l, t := s[..k - 1], s[k - 1], s[k..];
      var next', prev' := next[n := next[l]][l := n], prev[next[l] := n][n := l];
      assert s == a + [l] + t;
      DistinctParts(a, l, t);
      hide Distinct;
      PathCut(next, prev, h, a, l, t, h);
      InsertBehind(next, prev, l, t, h, n);
      assert next[l] == if t == [] then h else t[0];
      PathFrame(next, prev, next', prev', h, a, l);
      PathCut(next', prev', h, a, l, [n] + t, h);
      assert r == a + [l] + ([n] + t);
    }
  }

  /** The neighbours of a node are nodes or the head. */
  lemma Neighbours(next: Links, prev: Links, h: int, s: seq<int>, k: nat)
    requires IsRing(next, prev, h, s) && k < |s|
    ensures s[k] in next && s[k] in prev
    ensures (next[s[k]] == h || next[s[k]] in s) && (prev[s[k]] == h || prev[s[k]] in s)
  {
    Next(next, prev, h, s, k);
    var a, x, b := s[..k], s[k], s[k + 1..];
    assert s == a + [x] + b;
    PathCut(next, prev, h, a, x, b, h);
    PathLast(next, prev, h, a, x);
  }
}
