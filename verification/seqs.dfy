/**
 * Sequence helpers shared by the model: JavaScript's `Array.prototype.filter`
 * and the facts about it that the rest of the model leans on.
 */
module Seqs {

  /** `xs.filter(p)`: the elements satisfying `p`, in their original order. */
  function Filter<T>(xs: seq<T>, p: T -> bool): (r: seq<T>)
    ensures |r| <= |xs|
    ensures forall i :: 0 <= i < |r| ==> p(r[i])
    ensures r == [] <==> forall i :: 0 <= i < |xs| ==> !p(xs[i])
    ensures |r| == |xs| <==> forall i :: 0 <= i < |xs| ==> p(xs[i])
  {
    if |xs| == 0 then []
    else (if p(xs[0]) then [xs[0]] else []) + Filter(xs[1..], p)
  }

  /** Concatenation is associative. */
  lemma AppendAssoc<T>(x: seq<T>, y: seq<T>, z: seq<T>)
    ensures x + (y + z) == (x + y) + z
  {
  }

  /** Filtering distributes over concatenation; with `Filter([x], p)` this pins `Filter` down. */
  lemma {:induction false} FilterAppend<T>(a: seq<T>, b: seq<T>, p: T -> bool)
    ensures Filter(a + b, p) == Filter(a, p) + Filter(b, p)
  {
    if |a| == 0 {
      assert a + b == b;
    } else {
      assert (a + b)[1..] == a[1..] + b;
      FilterAppend(a[1..], b, p);
    }
  }

  /** Taking one element out of a list lowers the filter count by one exactly when it satisfies `p`. */
  lemma FilterRemoveAt<T>(ys: seq<T>, k: nat, p: T -> bool)
    requires k < |ys|
    ensures |Filter(ys, p)| == |Filter(ys[..k] + ys[k + 1..], p)| + (if p(ys[k]) then 1 else 0)
  {
    assert ys == (ys[..k] + [ys[k]]) + ys[k + 1..];
    FilterAppend(ys[..k] + [ys[k]], ys[k + 1..], p);
    FilterAppend(ys[..k], [ys[k]], p);
    FilterAppend(ys[..k], ys[k + 1..], p);
    assert [ys[k]][1..] == [];
  }

  lemma MultisetRemoveAt<T>(xs: seq<T>, ys: seq<T>, k: nat)
    requires multiset(xs) == multiset(ys) && |xs| > 0
    requires k < |ys| && ys[k] == xs[0]
    ensures multiset(xs[1..]) == multiset(ys[..k] + ys[k + 1..])
  {
    assert xs == [xs[0]] + xs[1..];
    assert ys == ys[..k] + [ys[k]] + ys[k + 1..];
    assert multiset(xs) == multiset{xs[0]} + multiset(xs[1..]);
    assert multiset(ys) == multiset(ys[..k]) + multiset{ys[k]} + multiset(ys[k + 1..]);
    var a, b := multiset(ys[..k]), multiset(ys[k + 1..]);
    calc {
      multiset(xs[1..]);
      (multiset(xs[1..]) + multiset{xs[0]}) - multiset{xs[0]};
      multiset(ys) - multiset{ys[k]};
      ((a + b) + multiset{ys[k]}) - multiset{ys[k]};
      a + b;
      multiset(ys[..k] + ys[k + 1..]);
    }
  }

  /** Reordering the input does not change how many elements a filter keeps. */
  lemma {:induction false} FilterPermutation<T>(xs: seq<T>, ys: seq<T>, p: T -> bool)
    requires multiset(xs) == multiset(ys)
    ensures |Filter(xs, p)| == |Filter(ys, p)|
  {
    if |xs| == 0 {
      assert |ys| == |multiset(ys)| == 0;
    } else {
      assert xs[0] in multiset(ys);
      var k :| 0 <= k < |ys| && ys[k] == xs[0];
      MultisetRemoveAt(xs, ys, k);
      FilterPermutation(xs[1..], ys[..k] + ys[k + 1..], p);
      FilterRemoveAt(ys, k, p);
    }
  }
}
