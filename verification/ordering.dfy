/**
 Newest-first ordering, the `order_by('-created_at')` / `ordering = ['-date_created']`
 that every listing of the model applies. Rows are identified by their keys and
 `stamp` gives each key its creation time. Rows with equal stamps may come in any
 order, as the database leaves ties unordered.
 */
module Ordering {

  /** Every key occurs at most once. */
  predicate Distinct<K(==)>(r: seq<K>) {
    forall i, j :: 0 <= i < j < |r| ==> r[i] != r[j]
  }

  /** The stamps never increase along the sequence. */
  predicate NewestFirst<K>(r: seq<K>, stamp: K -> int) {
    forall i, j :: 0 <= i < j < |r| ==> stamp(r[i]) >= stamp(r[j])
  }

  /** The first key of a newest-first sequence is at least as new as every key in it. */
  lemma HeadIsNewest<K>(r: seq<K>, stamp: K -> int)
    requires NewestFirst(r, stamp) && r != []
    ensures forall x :: x in r ==> stamp(r[0]) >= stamp(x)
  {
  }

  /** A key at least as new as all of a newest-first sequence may go in front of it. */
  lemma PrependKeepsOrder<K>(x: K, r: seq<K>, stamp: K -> int)
    requires NewestFirst(r, stamp)
    requires forall y :: y in r ==> stamp(x) >= stamp(y)
    ensures NewestFirst([x] + r, stamp)
  {
  }

  /** A key not yet in a duplicate-free sequence may go in front of it. */
  lemma PrependKeepsDistinct<K>(x: K, r: seq<K>)
    requires Distinct(r) && x !in r
    ensures Distinct([x] + r)
  {
  }

  /** Inserts `k` in front of the first key that is not newer than it. */
  function Insert<K(==,!new)>(r: seq<K>, k: K, stamp: K -> int): (r': seq<K>)
    requires NewestFirst(r, stamp)
    ensures NewestFirst(r', stamp)
    ensures |r'| == |r| + 1
    ensures forall x :: x in r' <==> x in r || x == k
    ensures Distinct(r) && k !in r ==> Distinct(r')
  {
    if r == [] then [k]
    else
      HeadIsNewest(r, stamp);
      if stamp(k) >= stamp(r[0]) then
        PrependKeepsOrder(k, r, stamp);
        if Distinct(r) && k !in r then PrependKeepsDistinct(k, r); [k] + r else [k] + r
      else
        assert r == [r[0]] + r[1..];
        var tail := Insert(r[1..], k, stamp);
        PrependKeepsOrder(r[0], tail, stamp);
        if Distinct(r) && k !in r then
          assert r[0] !in r[1..];
          assert Distinct(r[1..]);
          PrependKeepsDistinct(r[0], tail);
          [r[0]] + tail
        else [r[0]] + tail
  }

  /** Lists the keys of `keys`, each once, newest first. */
  method NewestFirstOf<K(==,!new)>(keys: set<K>, stamp: K -> int) returns (r: seq<K>)
    ensures forall k :: k in r <==> k in keys
    ensures Distinct(r)
    ensures NewestFirst(r, stamp)
  {
    r := [];
    var rest := keys;
    while rest != {}
      invariant rest <= keys
      invariant forall k :: k in r <==> k in keys && k !in rest
      invariant Distinct(r)
      invariant NewestFirst(r, stamp)
      decreases rest
    {
      var k :| k in rest;
      r := Insert(r, k, stamp);
      rest := rest - {k};
    }
  }
}
