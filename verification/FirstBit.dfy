/** __rt_ffs of kservice.c: finding the lowest set bit of a word by table look-up, byte by byte. */
module FirstBit {

  /** A machine word as its bits, least significant first. */
  type Word = seq<bool>

  function Value(w: Word): nat {
    if w == [] then 0 else (if w[0] then 1 else 0) + 2 * Value(w[1..])
  }

  predicate Zero(w: Word) { forall i :: 0 <= i < |w| ==> !w[i] }

  /** The position of the lowest set bit; the length of the word if there is none. */
  function First(w: Word): (r: nat)
    ensures r <= |w| && (r < |w| ==> w[r]) && forall i :: 0 <= i < r ==> !w[i]
  {
    if w == [] then 0 else if w[0] then 0 else 1 + First(w[1..])
  }

  /** The rows of __lowest_bit_bitmap: they differ only in their first entry. */
  const ROW: seq<nat> := [0, 0, 1, 0, 2, 0, 1, 0, 3, 0, 1, 0, 2, 0, 1, 0]
  const FIRST_COLUMN: seq<nat> := [0, 4, 5, 4, 6, 4, 5, 4, 7, 4, 5, 4, 6, 4, 5, 4]

  function LowestBit(v: nat): nat
    requires v < 256
  {
    if v % 16 == 0 then FIRST_COLUMN[v / 16] else ROW[v % 16]
  }

  /** __rt_ffs */
  function Ffs(value: nat): nat
    requires value < 0x1_0000_0000
  {
    if value == 0 then 0
    else if value % 0x100 != 0 then LowestBit(value % 0x100) + 1
    else if value / 0x100 % 0x100 != 0 then LowestBit(value / 0x100 % 0x100) + 9
    else if value / 0x1_0000 % 0x100 != 0 then LowestBit(value / 0x1_0000 % 0x100) + 17
    else LowestBit(value / 0x100_0000) + 25
  }

  function Bit(b: bool): nat { if b then 1 else 0 }

  lemma {:induction false} ValueZero(w: Word)
    ensures Value(w) == 0 <==> Zero(w)
  {
    if w != [] {
      ValueZero(w[1..]);
      assert w == [w[0]] + w[1..];
    }
  }

  function Scale(n: nat): nat { if n == 0 then 1 else 2 * Scale(n - 1) }

  lemma {:induction false} ValueConcat(a: Word, b: Word)
    ensures Value(a + b) == Value(a) + Scale(|a|) * Value(b)
  {
    if a == [] {
      assert a + b == b;
    } else {
      ValueConcat(a[1..], b);
      assert (a + b)[1..] == a[1..] + b;
      assert 2 * (Scale(|a| - 1) * Value(b)) == Scale(|a|) * Value(b);
    }
  }

  lemma {:induction false} ValueBound(w: Word)
    ensures Value(w) < Scale(|w|)
  {
    if w != [] {
      ValueBound(w[1..]);
    }
  }

  lemma Nibble(w: Word)
    requires |w| == 4
    ensures Value(w) == Bit(w[0]) + 2 * Bit(w[1]) + 4 * Bit(w[2]) + 8 * Bit(w[3])
    ensures First(w) == if w[0] then 0 else if w[1] then 1 else if w[2] then 2 else if w[3] then 3 else 4
  {
    var a, b, c := w[1..], w[2..], w[3..];
    assert a[1..] == b && b[1..] == c && c[1..] == [];
    assert Value(c) == Bit(w[3]) && Value(b) == Bit(w[2]) + 2 * Value(c) && Value(a) == Bit(w[1]) + 2 * Value(b);
    assert First(c) == (if w[3] then 0 else 1) && First(b) == (if w[2] then 0 else 1 + First(c)) && First(a) == (if w[1] then 0 else 1 + First(b));
  }

  lemma NibbleTable(w: Word)
    requires |w| == 4 && !Zero(w)
    ensures 0 < Value(w) < 16 && ROW[Value(w)] == First(w) && FIRST_COLUMN[Value(w)] == 4 + First(w)
  {
    Nibble(w);
    var b0, b1, b2, b3 := w[0], w[1], w[2], w[3];
    assert b0 || b1 || b2 || b3;
  }

  lemma {:induction false} FirstConcat(a: Word, b: Word)
    ensures First(a + b) == if Zero(a) then |a| + First(b) else First(a)
  {
    if a == [] {
      assert a + b == b;
    } else {
      assert (a + b)[1..] == a[1..] + b && a == [a[0]] + a[1..];
      FirstConcat(a[1..], b);
    }
  }

  lemma TableEntry(lo: nat, hi: nat)
    requires lo < 16 && hi < 16
    ensures lo + 16 * hi < 256 && LowestBit(lo + 16 * hi) == if lo == 0 then FIRST_COLUMN[hi] else ROW[lo]
  {
    assert (lo + 16 * hi) % 16 == lo && (lo + 16 * hi) / 16 == hi;
  }

  /** The table holds the position of the lowest set bit of every byte. */
  lemma TableIsFirst(w: Word)
    requires |w| == 8 && !Zero(w)
    ensures 0 < Value(w) < 256 && LowestBit(Value(w)) == First(w)
  {
    hide First; hide Value; hide LowestBit;
    var lo, hi := w[..4], w[4..];
    assert w == lo + hi;
    ValueConcat(lo, hi);
    FirstConcat(lo, hi);
    assert Scale(4) == 16;
    ValueZero(lo); ValueZero(hi);
    ValueBound(lo); ValueBound(hi);
    TableEntry(Value(lo), Value(hi));
    if Zero(lo) {
      assert !Zero(hi);
      NibbleTable(hi);
    } else {
      NibbleTable(lo);
    }
  }

  lemma Bytes(w: Word)
    requires |w| == 32
    ensures var a, b, c, d := w[..8], w[8..16], w[16..24], w[24..];
            && Value(w) == Value(a) + 0x100 * Value(b) + 0x1_0000 * Value(c) + 0x100_0000 * Value(d)
            && Value(a) < 256 && Value(b) < 256 && Value(c) < 256 && Value(d) < 256
            && First(w) == if !Zero(a) then First(a) else if !Zero(b) then 8 + First(b) else if !Zero(c) then 16 + First(c) else 24 + First(d)
  {
    var a, b, c, d := w[..8], w[8..16], w[16..24], w[24..];
    assert w == a + (b + (c + d));
    assert Scale(8) == 256;
    ValueConcat(a, b + (c + d)); ValueConcat(b, c + d); ValueConcat(c, d);
    ValueBound(a); ValueBound(b); ValueBound(c); ValueBound(d);
    FirstConcat(a, b + (c + d)); FirstConcat(b, c + d); FirstConcat(c, d);
  }

  /** The byte-wise look-up returns one more than the position of the lowest set bit, and zero
      only for the zero word. */
  lemma FfsIsFirst(w: Word)
    requires |w| == 32
    ensures Value(w) < 0x1_0000_0000
    ensures Ffs(Value(w)) == if Zero(w) then 0 else First(w) + 1
  {
    var a, b, c, d := w[..8], w[8..16], w[16..24], w[24..];
    Bytes(w);
    ValueZero(w); ValueZero(a); ValueZero(b); ValueZero(c); ValueZero(d);
    assert w == a + b + c + d;
    hide Value; hide First; hide LowestBit;
    var va, vb, vc, vd := Value(a), Value(b), Value(c), Value(d);
    Digits(va, vb, vc, vd);
    if !Zero(a) { TableIsFirst(a); }
    else if !Zero(b) { TableIsFirst(b); }
    else if !Zero(c) { TableIsFirst(c); }
    else if !Zero(d) { TableIsFirst(d); }
  }

  lemma Digits(a: nat, b: nat, c: nat, d: nat)
    requires a < 256 && b < 256 && c < 256 && d < 256
    ensures var v := a + 0x100 * b + 0x1_0000 * c + 0x100_0000 * d;
            && v % 0x100 == a && v / 0x100 % 0x100 == b && v / 0x1_0000 % 0x100 == c && v / 0x100_0000 == d
            && v < 0x1_0000_0000
  {
    var v := a + 0x100 * b + 0x1_0000 * c + 0x100_0000 * d;
    assert v / 0x100 == b + 0x100 * c + 0x1_0000 * d;
    assert v / 0x1_0000 == c + 0x100 * d;
  }
}
