/**
 * The two std::vector idioms the socket library uses on its registries:
 * `std::find_if` for the first element equal to a handle, and `erase` of the
 * iterator it returns. SocketThread::removeAdapter, SocketService::removeSocketThread
 * and the removal sweep of SocketServer::process all build on these.
 */
module Vectors {

  /** No handle occurs twice. */
  predicate NoDup<T(==)>(xs: seq<T>) {
    forall i, j :: 0 <= i < j < |xs| ==> xs[i] != xs[j]
  }

  /** Appending a handle keeps the registry free of duplicates exactly when the handle is new. */
  lemma NoDupSnoc<T>(xs: seq<T>, x: T)
    ensures NoDup(xs + [x]) <==> NoDup(xs) && x !in xs
  {
    var ys := xs + [x];
    if NoDup(ys) {
      forall i | 0 <= i < |xs| ensures xs[i] != x {
        assert ys[i] == xs[i] && ys[|xs|] == x;
      }
      forall i, j | 0 <= i < j < |xs| ensures xs[i] != xs[j] {
        assert ys[i] == xs[i] && ys[j] == xs[j];
      }
    }
    if NoDup(xs) && x !in xs {
      forall i, j | 0 <= i < j < |ys| ensures ys[i] != ys[j] {
        assert ys[i] == xs[i];
        if j < |xs| {
          assert ys[j] == xs[j];
        }
      }
    }
  }

  /** Index of the first element equal to `x` (what `std::find_if` points at). */
  function FirstIndex<T(==)>(xs: seq<T>, x: T): (k: nat)
    requires x in xs
    ensures k < |xs| && xs[k] == x
    ensures x !in xs[..k]
  {
    if xs[0] == x then 0
    else
      var k := 1 + FirstIndex(xs[1..], x);
      assert xs[..k] == [xs[0]] + xs[1..][..k - 1];
      k
  }

  /** A position holding `x` with no `x` before it is the first index. */
  lemma FirstIndexUnique<T>(xs: seq<T>, x: T, k: nat)
    requires k < |xs| && xs[k] == x && x !in xs[..k]
    ensures FirstIndex(xs, x) == k
  {
  }

  /**
   * `v.erase(std::find_if(v.begin(), v.end(), == x))`: the first occurrence of
   * `x` is removed and every other element keeps its relative order.
   */
  function EraseFirst<T(==)>(xs: seq<T>, x: T): (r: seq<T>)
    requires x in xs
    ensures |r| == |xs| - 1
    ensures exists k :: 0 <= k < |xs| && xs[k] == x && x !in xs[..k] && r == xs[..k] + xs[k + 1..]
  {
    var k := FirstIndex(xs, x);
    xs[..k] + xs[k + 1..]
  }

  /** Erasing removes exactly one copy of `x` from the multiset of elements. */
  lemma EraseFirstMultiset<T>(xs: seq<T>, x: T)
    requires x in xs
    ensures multiset(EraseFirst(xs, x)) == multiset(xs) - multiset{x}
  {
    var k := FirstIndex(xs, x);
    assert xs == xs[..k] + [x] + xs[k + 1..];
    calc {
      multiset(xs);
      multiset(xs[..k]) + multiset{x} + multiset(xs[k + 1..]);
      multiset(EraseFirst(xs, x)) + multiset{x};
    }
  }

  /** Every other element survives the erase, and nothing new appears. */
  lemma EraseFirstKeepsOthers<T>(xs: seq<T>, x: T, y: T)
    requires x in xs && y != x
    ensures y in EraseFirst(xs, x) <==> y in xs
  {
    var k := FirstIndex(xs, x);
    assert xs == xs[..k] + [x] + xs[k + 1..];
  }

  /** On a registry without duplicates, the erased handle is gone afterwards. */
  lemma EraseFirstNoDup<T>(xs: seq<T>, x: T)
    requires x in xs && NoDup(xs)
    ensures NoDup(EraseFirst(xs, x))
    ensures x !in EraseFirst(xs, x)
  {
    var k := FirstIndex(xs, x);
    var r := EraseFirst(xs, x);
    assert r == xs[..k] + xs[k + 1..];
    forall i | 0 <= i < |r| ensures r[i] == if i < k then xs[i] else xs[i + 1] {
    }
  }

  /**
   * The linear search `std::find_if` performs: the index of the first element
   * equal to `x`, or `|xs|` (the end iterator) when there is none.
   */
  method Find<T(==)>(xs: seq<T>, x: T) returns (k: nat)
    ensures k <= |xs|
    ensures x !in xs[..k]
    ensures k < |xs| ==> xs[k] == x
    ensures k == |xs| <==> x !in xs
  {
    k := 0;
    while k < |xs| && xs[k] != x
      invariant k <= |xs|
      invariant x !in xs[..k]
    {
      assert xs[..k + 1] == xs[..k] + [xs[k]];
      k := k + 1;
    }
    assert k == |xs| ==> xs[..k] == xs;
  }
}
