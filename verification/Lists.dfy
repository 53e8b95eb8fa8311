/** Lists of identifiers: no repetitions, and taking a member out. */
module Lists {

  ghost predicate Distinct(s: seq<int>) {
    forall i, j :: 0 <= i < j < |s| ==> s[i] != s[j]
  }

  function Without(s: seq<int>, x: int): (r: seq<int>) {
    if s == [] then [] else (if s[0] == x then [] else [s[0]]) + Without(s[1..], x)
  }

  lemma {:induction false} WithoutAbsent(s: seq<int>, x: int)
    requires x !in s
    ensures Without(s, x) == s
  {
    if s != [] {
      WithoutAbsent(s[1..], x);
    }
  }

  lemma {:induction false} WithoutConcat(a: seq<int>, b: seq<int>, x: int)
    ensures Without(a + b, x) == Without(a, x) + Without(b, x)
  {
    if a == [] {
      assert a + b == b;
    } else {
      var r, t := a + b, a[1..];
      assert r[0] == a[0] && r[1..] == t + b;
      WithoutConcat(t, b, x);
      if a[0] != x {
        assert [a[0]] + (Without(t, x) + Without(b, x)) == [a[0]] + Without(t, x) + Without(b, x);
      }
    }
  }

  lemma DistinctHead(s: seq<int>)
    requires Distinct(s) && s != []
    ensures s[0] !in s[1..] && Distinct(s[1..])
  {
  }

  lemma {:induction false} WithoutSplit(r: seq<int>, i: nat)
    requires Distinct(r) && i < |r|
    ensures Without(r, r[i]) == r[..i] + r[i + 1..]
  {
    if i == 0 {
      DistinctHead(r);
      WithoutAbsent(r[1..], r[0]);
    } else {
      DistinctHead(r);
      WithoutSplit(r[1..], i - 1);
      assert r[i] == r[1..][i - 1];
      assert [r[0]] + (r[1..][..i - 1] + r[1..][i..]) == r[..i] + r[i + 1..];
    }
  }

  lemma {:induction false} WithoutFrom(s: seq<int>, x: int, y: int)
    requires y in Without(s, x)
    ensures y in s && y != x
  {
    if s != [] && y in Without(s[1..], x) {
      WithoutFrom(s[1..], x, y);
    }
  }
}
