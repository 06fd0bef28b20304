/** Sequence helpers: insertion-ordered de-duplication (what a JavaScript `Set` filled in a
    loop and read back with `Array.from` yields) and the positions an `Array.prototype.filter`
    keeps. */
module Sequences {

  predicate NoDuplicates<T(==,!new)>(s: seq<T>) {
    forall i, j :: 0 <= i < j < |s| ==> s[i] != s[j]
  }

  /** Index of the first occurrence of `x` in `s`. */
  function IndexOf<T(==,!new)>(s: seq<T>, x: T): (k: nat)
    requires x in s
    ensures k < |s| && s[k] == x && x !in s[..k]
  {
    if s[0] == x then 0 else 1 + IndexOf(s[1..], x)
  }

  /** The distinct elements of `s`, each kept at its first occurrence. */
  function FirstOccurrences<T(==,!new)>(s: seq<T>): (r: seq<T>)
    ensures NoDuplicates(r)
    ensures forall x :: x in r <==> x in s
  {
    if s == [] then []
    else
      var init := FirstOccurrences(s[..|s| - 1]);
      assert forall x :: x in s <==> x in s[..|s| - 1] || x == s[|s| - 1];
      if s[|s| - 1] in init then init else init + [s[|s| - 1]]
  }

  /** Appending one element keeps the earlier result and adds the element only if it is new. */
  lemma FirstOccurrencesSnoc<T(!new)>(s: seq<T>, x: T)
    ensures FirstOccurrences(s + [x]) ==
      if x in FirstOccurrences(s) then FirstOccurrences(s) else FirstOccurrences(s) + [x]
  {
    assert (s + [x])[..|s|] == s;
  }

  lemma IndexOfAppend<T(!new)>(s: seq<T>, y: T, x: T)
    requires x in s
    ensures IndexOf(s + [y], x) == IndexOf(s, x)
  {
    var k := IndexOf(s, x);
    assert (s + [y])[..k] == s[..k];
    IndexOfUnique(s + [y], x, k);
  }

  lemma IndexOfUnique<T(!new)>(s: seq<T>, x: T, k: nat)
    requires k < |s| && s[k] == x && x !in s[..k]
    ensures IndexOf(s, x) == k
  {
  }

  /** The kept elements appear in the order of their first occurrence in `s`. */
  lemma {:induction false} FirstOccurrencesOrdered<T(!new)>(s: seq<T>, i: nat, j: nat)
    requires i < j < |FirstOccurrences(s)|
    ensures FirstOccurrences(s)[i] in s && FirstOccurrences(s)[j] in s
    ensures IndexOf(s, FirstOccurrences(s)[i]) < IndexOf(s, FirstOccurrences(s)[j])
  {
    var r := FirstOccurrences(s);
    var init := s[..|s| - 1];
    var last := s[|s| - 1];
    var d := FirstOccurrences(init);
    assert s == init + [last];
    if j < |d| {
      FirstOccurrencesOrdered(init, i, j);
      IndexOfAppend(init, last, d[i]);
      IndexOfAppend(init, last, d[j]);
    } else {
      assert last !in d && r == d + [last] && j == |d|;
      assert last !in init;
      IndexOfUnique(s, last, |init|);
      IndexOfAppend(init, last, d[i]);
    }
  }

  /** The positions whose flag is set, in the order a `filter` visits them. */
  function Positions(keep: seq<bool>): (r: seq<nat>)
    ensures forall k :: 0 <= k < |r| ==> r[k] < |keep| && keep[r[k]]
  {
    if keep == [] then []
    else
      var init := keep[..|keep| - 1];
      assert forall k :: 0 <= k < |init| ==> init[k] == keep[k];
      Positions(init) + if keep[|keep| - 1] then [|keep| - 1] else []
  }

  predicate Increasing(ps: seq<nat>) {
    forall k, l :: 0 <= k < l < |ps| ==> ps[k] < ps[l]
  }

  /** The positions are listed in increasing order. */
  lemma {:induction false} PositionsIncreasing(keep: seq<bool>)
    ensures Increasing(Positions(keep))
  {
    if keep != [] {
      PositionsIncreasing(keep[..|keep| - 1]);
    }
  }

  /** Every position whose flag is set is listed. */
  lemma {:induction false} PositionsComplete(keep: seq<bool>, j: nat)
    requires j < |keep| && keep[j]
    ensures j in Positions(keep)
  {
    var init := keep[..|keep| - 1];
    if j < |init| {
      assert init[j] == keep[j];
      PositionsComplete(init, j);
    }
  }

  lemma {:induction false} PositionsLength(keep: seq<bool>)
    ensures |Positions(keep)| <= |keep|
  {
    if keep != [] {
      PositionsLength(keep[..|keep| - 1]);
    }
  }
}
