/**
 * The final step of the fleet generator: `alerts.sort((a, b) => b.timestamp - a.timestamp)`,
 * a stable sort that puts the most recent alert first.
 */
module NewestFirst {
  import opened Monitoring

  /** Timestamps never increase along the list. */
  predicate Sorted(xs: seq<Alert>) {
    forall i, j :: 0 <= i < j < |xs| ==> xs[i].timestamp >= xs[j].timestamp
  }

  /**
   * Inserts `a` into a newest-first list, ahead of every alert that is not
   * newer than it; an alert taken from earlier in the input therefore stays
   * ahead of later ones with the same timestamp, as the stable sort keeps them.
   */
  function Insert(a: Alert, xs: seq<Alert>): (r: seq<Alert>)
    requires Sorted(xs)
    ensures Sorted(r)
    ensures multiset(r) == multiset(xs) + multiset{a}
    ensures |r| == |xs| + 1
    ensures r[0] == a || (|xs| > 0 && r[0] == xs[0])
  {
    if |xs| == 0 || a.timestamp >= xs[0].timestamp then [a] + xs
    else
      var rest := Insert(a, xs[1..]);
      assert xs == [xs[0]] + xs[1..];
      [xs[0]] + rest
  }

  /** The sorted alert list the generator returns. */
  function SortNewestFirst(xs: seq<Alert>): (r: seq<Alert>)
    ensures Sorted(r)
    ensures multiset(r) == multiset(xs)
    ensures |r| == |xs|
  {
    if |xs| == 0 then []
    else
      assert xs == [xs[0]] + xs[1..];
      Insert(xs[0], SortNewestFirst(xs[1..]))
  }

  /** Sorting keeps exactly the alerts it was given: the same ones, each as often. */
  lemma SortedMembers(xs: seq<Alert>, a: Alert)
    ensures a in SortNewestFirst(xs) <==> a in xs
  {
    var r := SortNewestFirst(xs);
    assert a in r <==> a in multiset(r);
    assert a in xs <==> a in multiset(xs);
  }
}
