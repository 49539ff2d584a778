/**
 Stretches of a non-decreasing sequence of ranks: where the positions of a given range of ranks
 begin and end.
 */
module Intervals {

  predicate Sorted(rs: seq<nat>) {
    forall i, j :: 0 <= i < j < |rs| ==> rs[i] <= rs[j]
  }

  // How many ranks are below r.
  function Below(rs: seq<nat>, r: nat): (n: nat)
    ensures n <= |rs|
    decreases |rs|
  {
    if rs == [] then 0 else Below(rs[..|rs| - 1], r) + if rs[|rs| - 1] < r then 1 else 0
  }

  lemma BelowNext(rs: seq<nat>, x: nat, r: nat)
    ensures Below(rs + [x], r) == Below(rs, r) + if x < r then 1 else 0
  {
    assert (rs + [x])[..|rs|] == rs;
  }

  // In a sorted sequence they come first.
  lemma {:induction false} BelowFirst(rs: seq<nat>, r: nat, i: nat)
    requires Sorted(rs) && i < |rs|
    ensures rs[i] < r <==> i < Below(rs, r)
    decreases |rs|
  {
    var init := rs[..|rs| - 1];
    if i < |init| {
      BelowFirst(init, r, i);
    } else if |init| > 0 {
      BelowFirst(init, r, |init| - 1);
    }
  }

  lemma {:induction false} BelowMonotone(rs: seq<nat>, a: nat, b: nat)
    requires a <= b
    ensures Below(rs, a) <= Below(rs, b)
    decreases |rs|
  {
    if rs != [] {
      BelowMonotone(rs[..|rs| - 1], a, b);
    }
  }

  lemma {:induction false} BelowConcat(a: seq<nat>, b: seq<nat>, r: nat)
    ensures Below(a + b, r) == Below(a, r) + Below(b, r)
    decreases |b|
  {
    if b == [] {
      assert a + b == a;
    } else {
      var init := b[..|b| - 1];
      assert a + b == (a + init) + [b[|b| - 1]];
      BelowNext(a + init, b[|b| - 1], r);
      BelowConcat(a, init, r);
    }
  }

  // n times the rank k.
  function Repeat(k: nat, n: nat): (rs: seq<nat>)
    ensures |rs| == n && forall i :: 0 <= i < n ==> rs[i] == k
    decreases n
  {
    if n == 0 then [] else Repeat(k, n - 1) + [k]
  }

  lemma {:induction false} BelowRepeat(k: nat, n: nat, r: nat)
    ensures Below(Repeat(k, n), r) == if k < r then n else 0
    decreases n
  {
    if n > 0 {
      BelowRepeat(k, n - 1, r);
      BelowNext(Repeat(k, n - 1), k, r);
    }
  }

  // ---------------------------------------------------------------- spans

  datatype Span = Span(off: nat, len: nat)

  // The positions whose rank is at least a and below b.
  function Stretch(rs: seq<nat>, a: nat, b: nat): Span
    requires a <= b
  {
    BelowMonotone(rs, a, b);
    Span(Below(rs, a), Below(rs, b) - Below(rs, a))
  }

  lemma StretchHolds(rs: seq<nat>, a: nat, b: nat, i: nat)
    requires Sorted(rs) && a <= b && i < |rs|
    ensures var s := Stretch(rs, a, b); s.off <= i < s.off + s.len <==> a <= rs[i] < b
  {
    BelowFirst(rs, a, i);
    BelowFirst(rs, b, i);
  }

  // The ranks at the end of a range and behind it.
  lemma StretchEnds(rs: seq<nat>, a: nat, b: nat)
    requires Sorted(rs) && a <= b && Stretch(rs, a, b).len > 0
    ensures var s := Stretch(rs, a, b);
            var e := s.off + s.len;
            0 < e <= |rs| && a <= rs[e - 1] < b && (e < |rs| ==> rs[e] >= b)
  {
    hide Sorted;
    var s := Stretch(rs, a, b);
    var e := s.off + s.len;
    StretchHolds(rs, a, b, e - 1);
    if e < |rs| {
      BelowFirst(rs, b, e);
    }
  }

  lemma StretchesApart(rs: seq<nat>, a: nat, b: nat, c: nat, d: nat)
    requires a <= b <= c <= d
    ensures var s, t := Stretch(rs, a, b), Stretch(rs, c, d); s.off + s.len <= t.off && t.off + t.len <= |rs|
  {
    BelowMonotone(rs, a, b);
    BelowMonotone(rs, b, c);
    BelowMonotone(rs, c, d);
  }

  lemma SortedNext(rs: seq<nat>, x: nat)
    requires Sorted(rs + [x])
    ensures Sorted(rs) && (rs != [] ==> rs[|rs| - 1] <= x)
  {
    var t := rs + [x];
    assert forall i :: 0 <= i < |rs| ==> t[i] == rs[i];
    if rs != [] {
      assert t[|rs| - 1] <= t[|rs|];
    }
  }

  // All ranks are below r exactly if the last one is.
  lemma LastBelow(rs: seq<nat>, r: nat)
    requires Sorted(rs)
    ensures rs == [] ==> Below(rs, r) == 0
    ensures rs != [] ==> (rs[|rs| - 1] < r <==> Below(rs, r) == |rs|)
  {
    hide Sorted;
    if rs != [] {
      BelowFirst(rs, r, |rs| - 1);
    }
  }

  // One more rank, in, behind or in front of the range.
  lemma StretchNext(rs: seq<nat>, x: nat, a: nat, b: nat)
    requires Sorted(rs + [x]) && a <= b
    ensures var s, t := Stretch(rs, a, b), Stretch(rs + [x], a, b);
            && (a <= x < b ==> t == if s.len == 0 then Span(|rs|, 1) else Span(s.off, s.len + 1))
            && (x >= b ==> t == s)
            && (x < a ==> t.len == 0 && s.len == 0)
  {
    hide Sorted, Below;
    BelowNext(rs, x, a);
    BelowNext(rs, x, b);
    SortedNext(rs, x);
    LastBelow(rs, a);
    LastBelow(rs, b);
    BelowMonotone(rs, a, b);
  }

  // A range has been entered exactly if the last rank has reached it.
  lemma StretchEntered(rs: seq<nat>, a: nat, b: nat)
    requires Sorted(rs) && a <= b
    ensures (rs == [] || rs[|rs| - 1] < a) ==> Stretch(rs, a, b).len == 0
    ensures rs != [] && a <= rs[|rs| - 1] < b ==> Stretch(rs, a, b).len > 0
  {
    if rs != [] {
      BelowFirst(rs, a, |rs| - 1);
      BelowFirst(rs, b, |rs| - 1);
    }
  }

  // What one more rank does to a range, given the rank before it.
  lemma StretchStep(rs: seq<nat>, before: nat, x: nat, a: nat, b: nat)
    requires Sorted(rs) && Sorted(rs + [x]) && a <= b
    requires if rs == [] then before < a || x >= b else rs[|rs| - 1] == before
    ensures var s, t := Stretch(rs, a, b), Stretch(rs + [x], a, b);
            if !(a <= x < b) then s.len == t.len && (s.len > 0 ==> s == t)
            else if before < a then s.len == 0 && t == Span(|rs|, 1)
            else s.len > 0 && t == Span(s.off, s.len + 1)
  {
    hide Stretch;
    StretchNext(rs, x, a, b);
    StretchEntered(rs, a, b);
    if rs != [] {
      assert (rs + [x])[|rs| - 1] <= (rs + [x])[|rs|];
    }
  }
}
