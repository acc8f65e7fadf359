/** The bounded min-heap both top-countries variants run: each item is pushed
    while the heap holds fewer than `K` entries and offered to `heappushpop`
    once it is full. Fed distinct items, the heap ends up holding exactly the
    `K` largest of them (all of them when there are fewer). */
module BoundedTop {
  import opened Seqs
  import opened Heapq

  /** The literal `3` in `len(minheap) < 3`. */
  const K: nat := 3

  function Min(a: nat, b: nat): nat {
    if a < b then a else b
  }

  /** One step of the loop body: `heappush` below capacity, else `heappushpop`. */
  function Feed<T>(h: seq<T>, lt: (T, T) -> bool, x: T): seq<T> {
    if |h| < K then Pushed(h, lt, x) else PushPopped(h, lt, x).0
  }

  /** The loop body as written: `heapq.heappush(minheap, x)` while the heap
      holds fewer than three entries, else `heapq.heappushpop(minheap, x)`
      with the popped item dropped. */
  method Offer<T>(h: seq<T>, lt: (T, T) -> bool, x: T) returns (r: seq<T>)
    ensures r == Feed(h, lt, x)
  {
    if |h| < K {
      r := HeapPush(h, lt, x);
    } else {
      var popped;
      r, popped := HeapPushPop(h, lt, x);
    }
  }

  /** The heap after feeding the items of `s` in order, starting empty. */
  function KeepTop<T>(s: seq<T>, lt: (T, T) -> bool): seq<T>
    decreases |s|
  {
    if s == [] then [] else Feed(KeepTop(s[..|s| - 1], lt), lt, s[|s| - 1])
  }

  lemma KeepTopSnoc<T>(s: seq<T>, lt: (T, T) -> bool, x: T)
    ensures KeepTop(s + [x], lt) == Feed(KeepTop(s, lt), lt, x)
  {
    assert (s + [x])[..|s|] == s;
  }

  /** In a heap without repeats the root is strictly below every other entry. */
  lemma RootLeast<T(!new)>(h: seq<T>, lt: (T, T) -> bool, j: nat)
    requires StrictTotalOrder(lt) && IsHeap(h, lt) && Distinct(h) && 0 < j < |h|
    ensures lt(h[0], h[j])
  {
    HeapMin(h, lt);
    DistinctAt(h, 0, j);
  }

  /** `h` is a heap of the `K` largest items of `s`, each once. */
  ghost predicate IsTop<T(!new)>(h: seq<T>, s: seq<T>, lt: (T, T) -> bool) {
    && IsHeap(h, lt)
    && |h| == Min(K, |s|)
    && Distinct(h)
    && (forall x :: x in h ==> x in s)
    && (|s| <= K ==> forall x :: x in s ==> x in h)
    && (forall x, y :: x in s && x !in h && y in h ==> lt(x, y))
  }

  /** Feeding one item to a full heap replaces the minimum exactly when the
      item is strictly greater than it. */
  lemma FeedFull<T(!new)>(h: seq<T>, lt: (T, T) -> bool, x: T)
    requires StrictTotalOrder(lt) && IsHeap(h, lt) && |h| == K
    ensures lt(h[0], x) ==> multiset(Feed(h, lt, x)) == multiset(h) - multiset{h[0]} + multiset{x}
    ensures !lt(h[0], x) ==> Feed(h, lt, x) == h
    ensures IsHeap(Feed(h, lt, x), lt) && |Feed(h, lt, x)| == K
  {
    PushPoppedSpec(h, lt, x);
  }

  lemma {:induction false} KeepTopIsTop<T(!new)>(s: seq<T>, lt: (T, T) -> bool)
    requires StrictTotalOrder(lt) && Distinct(s)
    ensures IsTop(KeepTop(s, lt), s, lt)
    decreases |s|
  {
    if s != [] {
      var p, x := s[..|s| - 1], s[|s| - 1];
      assert s == p + [x];
      assert multiset(s) == multiset(p) + multiset{x};
      assert Distinct(p) by {
        forall y ensures multiset(p)[y] <= 1 {
          assert multiset(s)[y] <= 1;
        }
      }
      assert x !in p by {
        assert multiset(s)[x] == multiset(p)[x] + 1;
      }
      KeepTopIsTop(p, lt);
      var h := KeepTop(p, lt);
      if |h| < K {
        FeedBelowCapacity(h, p, lt, x);
      } else {
        FeedAtCapacity(h, p, lt, x);
      }
    }
  }

  lemma FeedBelowCapacity<T(!new)>(h: seq<T>, p: seq<T>, lt: (T, T) -> bool, x: T)
    requires StrictTotalOrder(lt) && IsTop(h, p, lt) && x !in p && |h| < K
    ensures IsTop(Feed(h, lt, x), p + [x], lt)
  {
    var h', s := Feed(h, lt, x), p + [x];
    PushedSpec(h, lt, x);
    assert multiset(h') == multiset(h) + multiset{x};
    forall y ensures y in h' <==> y in h || y == x {
      assert y in h' <==> y in multiset(h');
    }
    assert x !in h;
    DistinctAppend(h, x);
    assert multiset(h + [x]) == multiset(h');
  }

  lemma FeedAtCapacity<T(!new)>(h: seq<T>, p: seq<T>, lt: (T, T) -> bool, x: T)
    requires StrictTotalOrder(lt) && IsTop(h, p, lt) && x !in p && |h| == K
    ensures IsTop(Feed(h, lt, x), p + [x], lt)
  {
    var h', s := Feed(h, lt, x), p + [x];
    FeedFull(h, lt, x);
    HeapMin(h, lt);
    assert x !in h;
    if lt(h[0], x) {
      var m := h[0];
      assert m in h;
      var mh := multiset(h);
      assert multiset(h') == mh - multiset{m} + multiset{x};
      forall y ensures y in h' <==> (y in h && y != m) || y == x {
        assert y in h' <==> y in multiset(h');
        assert y in h <==> y in mh;
      }
      forall y ensures multiset(h')[y] <= 1 {
        assert multiset(h)[y] <= 1;
      }
      forall y, z | y in s && y !in h' && z in h' ensures lt(y, z) {
        if y == m {
          if z != x {
            var j :| 0 <= j < |h| && h[j] == z;
            assert !lt(h[j], m);
          }
        } else {
          assert y in p && y !in h;
          if z == x {
            assert lt(y, m);
          }
        }
      }
    } else {
      forall z | z in h ensures lt(x, z) {
        var j :| 0 <= j < |h| && h[j] == z;
        assert !lt(h[j], h[0]);
        assert lt(x, h[0]);
      }
    }
  }
}
