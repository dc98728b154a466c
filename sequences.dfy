/** Generic facts about sequences shared by the grouping engine, the row
    filter and the having filter: order-preserving selection by a mask
    (`Keep`) and removal of repeated elements (`Dedupe`). */
module Sequences {

  predicate NoDuplicates<T(==)>(s: seq<T>) {
    forall i, j :: 0 <= i < j < |s| ==> s[i] != s[j]
  }

  /** Removes repeated elements, keeping each element at its first occurrence. */
  function Dedupe<T(==)>(s: seq<T>): seq<T> {
    if |s| == 0 then []
    else
      var d := Dedupe(s[..|s| - 1]);
      if s[|s| - 1] in d then d else d + [s[|s| - 1]]
  }

  /** The result has no repeated element and holds exactly the elements of
      the input. */
  lemma {:induction false} DedupeSpec<T>(s: seq<T>)
    ensures NoDuplicates(Dedupe(s))
    ensures forall i :: 0 <= i < |Dedupe(s)| ==> Dedupe(s)[i] in s
    ensures forall i :: 0 <= i < |s| ==> s[i] in Dedupe(s)
  {
    if |s| > 0 {
      var init, last := s[..|s| - 1], s[|s| - 1];
      var d := Dedupe(init);
      DedupeSpec(init);
      assert s == init + [last];
      if last !in d {
        var r := d + [last];
        assert forall i :: 0 <= i < |d| ==> r[i] == d[i];
        assert forall i :: 0 <= i < |d| ==> r[i] != last;
      }
    }
  }

  /** The position of `x` in a sequence that contains it. */
  function IndexOf<T(==)>(s: seq<T>, x: T): (i: nat)
    requires x in s
    ensures i < |s| && s[i] == x
  {
    if s[0] == x then 0 else 1 + IndexOf(s[1..], x)
  }

  function Elements<T>(s: seq<T>): set<T> {
    set x | x in s
  }

  lemma {:induction false} NoDuplicatesCardinality<T>(s: seq<T>)
    requires NoDuplicates(s)
    ensures |Elements(s)| == |s|
  {
    if |s| > 0 {
      var init := s[..|s| - 1];
      var last := s[|s| - 1];
      assert NoDuplicates(init);
      NoDuplicatesCardinality(init);
      assert s == init + [last];
      assert Elements(s) == Elements(init) + {last};
      assert last !in Elements(init);
    }
  }

  /** The number of `true` entries. */
  function CountTrue(bs: seq<bool>): nat {
    if |bs| == 0 then 0
    else CountTrue(bs[..|bs| - 1]) + (if bs[|bs| - 1] then 1 else 0)
  }

  lemma {:induction false} CountTrueBound(bs: seq<bool>)
    ensures CountTrue(bs) <= |bs|
    ensures CountTrue(bs) == 0 <==> forall i :: 0 <= i < |bs| ==> !bs[i]
    ensures CountTrue(bs) == |bs| <==> forall i :: 0 <= i < |bs| ==> bs[i]
  {
    if |bs| > 0 {
      var init := bs[..|bs| - 1];
      CountTrueBound(init);
      assert forall i :: 0 <= i < |init| ==> init[i] == bs[i];
    }
  }

  lemma {:induction false} CountTrueMonotone(bs: seq<bool>, i: nat, j: nat)
    requires i <= j <= |bs|
    ensures CountTrue(bs[..i]) <= CountTrue(bs[..j])
    decreases j - i
  {
    if i < j {
      CountTrueMonotone(bs, i, j - 1);
      assert bs[..j][..j - 1] == bs[..j - 1];
    }
  }

  /** A `true` entry at `i` puts every later prefix count strictly above the
      count of the prefix before `i`. */
  lemma CountTrueStrict(bs: seq<bool>, i: nat, j: nat)
    requires i < j <= |bs| && bs[i]
    ensures CountTrue(bs[..i]) < CountTrue(bs[..j])
  {
    assert bs[..i + 1][..i] == bs[..i];
    CountTrueMonotone(bs, i + 1, j);
  }

  /** The elements of `xs` whose mask entry is `true`, in their original order. */
  function Keep<T>(xs: seq<T>, mask: seq<bool>): (r: seq<T>)
    requires |mask| == |xs|
    ensures |r| == CountTrue(mask)
  {
    if |xs| == 0 then []
    else
      var init := Keep(xs[..|xs| - 1], mask[..|mask| - 1]);
      if mask[|mask| - 1] then init + [xs[|xs| - 1]] else init
  }

  /** One more element of input adds at most that element to the end. */
  lemma KeepSnoc<T>(xs: seq<T>, mask: seq<bool>, i: nat)
    requires |mask| == |xs| && i < |xs|
    ensures Keep(xs[..i + 1], mask[..i + 1])
            == Keep(xs[..i], mask[..i]) + (if mask[i] then [xs[i]] else [])
  {
    assert xs[..i + 1][..i] == xs[..i];
    assert mask[..i + 1][..i] == mask[..i];
  }

  lemma {:induction false} KeepPrefix<T>(xs: seq<T>, mask: seq<bool>, m: nat)
    requires |mask| == |xs| && m <= |xs|
    ensures Keep(xs[..m], mask[..m]) <= Keep(xs, mask)
    decreases |xs| - m
  {
    if m < |xs| {
      var n := |xs| - 1;
      KeepPrefix(xs[..n], mask[..n], m);
      assert xs[..n][..m] == xs[..m];
      assert mask[..n][..m] == mask[..m];
    } else {
      assert xs[..m] == xs && mask[..m] == mask;
    }
  }

  /** A kept element `xs[i]` sits at the position given by the number of kept
      elements before it. */
  lemma KeepPlacement<T>(xs: seq<T>, mask: seq<bool>, i: nat)
    requires |mask| == |xs| && i < |xs| && mask[i]
    ensures CountTrue(mask[..i]) < |Keep(xs, mask)|
    ensures Keep(xs, mask)[CountTrue(mask[..i])] == xs[i]
  {
    KeepSnoc(xs, mask, i);
    KeepPrefix(xs, mask, i + 1);
  }

  /** Every element of the result is some kept `xs[i]`, at that element's
      position. */
  lemma {:induction false} KeepOrigin<T>(xs: seq<T>, mask: seq<bool>, p: nat)
    requires |mask| == |xs| && p < |Keep(xs, mask)|
    ensures exists i :: 0 <= i < |xs| && mask[i] && CountTrue(mask[..i]) == p
                        && xs[i] == Keep(xs, mask)[p]
  {
    var n := |xs| - 1;
    var init := Keep(xs[..n], mask[..n]);
    if p < |init| {
      KeepOrigin(xs[..n], mask[..n], p);
      var i :| 0 <= i < n && mask[..n][i] && CountTrue(mask[..n][..i]) == p
               && xs[..n][i] == init[p];
      assert mask[..n][..i] == mask[..i];
      assert mask[i] && CountTrue(mask[..i]) == p && xs[i] == Keep(xs, mask)[p];
    } else {
      assert mask[..n] == mask[..n][..n];
      assert mask[n] && CountTrue(mask[..n]) == p && xs[n] == Keep(xs, mask)[p];
    }
  }

  lemma KeepAllFalse<T>(xs: seq<T>, mask: seq<bool>)
    requires |mask| == |xs|
    ensures Keep(xs, mask) == [] <==> forall i :: 0 <= i < |mask| ==> !mask[i]
  {
    CountTrueBound(mask);
  }
}
