/** Python's `heapq` on a list, as CPython implements it: `heappush`,
    `heappushpop` and their helpers `_siftdown` and `_siftup`. The list is a
    `seq` that each operation returns updated; elements are compared with a
    strict total order `lt` standing for Python's `<`.

    Every operation is written twice: as a function that is its specification
    and as a method with the loop the library runs, proved equal to it. The
    lemmas then prove what `heapq` promises about the functions. Both callers
    in the model pass `startpos = 0` to `_siftdown`, so the start position is
    fixed at the root. */
module Heapq {

  ghost predicate StrictTotalOrder<T(!new)>(lt: (T, T) -> bool) {
    && (forall a :: !lt(a, a))
    && (forall a, b, c :: lt(a, b) && lt(b, c) ==> lt(a, c))
    && (forall a, b :: a != b ==> lt(a, b) || lt(b, a))
  }

  function Parent(i: nat): nat
    requires 0 < i
  {
    (i - 1) / 2
  }

  /** No element is smaller than its parent. */
  ghost predicate IsHeap<T>(h: seq<T>, lt: (T, T) -> bool) {
    forall i :: 0 < i < |h| ==> !lt(h[i], h[Parent(i)])
  }

  // ---------------------------------------------------------------------
  // Specification functions

  /** `_siftdown(heap, 0, pos)` with `newitem` taken out of slot `pos`: move
      `newitem` towards the root while it is smaller than its parent. */
  function SiftedDown<T>(h: seq<T>, lt: (T, T) -> bool, pos: nat, newitem: T): seq<T>
    requires pos < |h|
    decreases pos
  {
    if 0 < pos && lt(newitem, h[Parent(pos)]) then
      SiftedDown(h[pos := h[Parent(pos)]], lt, Parent(pos), newitem)
    else
      h[pos := newitem]
  }

  /** `_siftup(heap, 0)`, continued from a hole at slot `pos` with `newitem`
      taken out: bubble the smaller child up until the hole reaches a leaf
      (the right child wins a tie), then put `newitem` there and sift it down
      towards the root. The recursion passes through deeper positions, but the
      final sift always runs to the root, as CPython's does for start
      position 0 only. */
  function SiftedUp<T>(h: seq<T>, lt: (T, T) -> bool, pos: nat, newitem: T): seq<T>
    requires pos < |h|
    decreases |h| - pos
  {
    var child := 2 * pos + 1;
    if child < |h| then
      var c := if child + 1 < |h| && !lt(h[child], h[child + 1]) then child + 1 else child;
      SiftedUp(h[pos := h[c]], lt, c, newitem)
    else
      SiftedDown(h, lt, pos, newitem)
  }

  /** `heappush(heap, item)` */
  function Pushed<T>(h: seq<T>, lt: (T, T) -> bool, item: T): seq<T> {
    SiftedDown(h + [item], lt, |h|, item)
  }

  /** `heappushpop(heap, item)`: the new list and the item returned. */
  function PushPopped<T>(h: seq<T>, lt: (T, T) -> bool, item: T): (seq<T>, T) {
    if 0 < |h| && lt(h[0], item) then (SiftedUp(h, lt, 0, item), h[0])
    else (h, item)
  }

  // ---------------------------------------------------------------------
  // The library's loops

  /** `_siftdown(heap, 0, pos)` */
  method SiftDown<T>(h: seq<T>, lt: (T, T) -> bool, pos0: nat) returns (r: seq<T>)
    requires pos0 < |h|
    ensures r == SiftedDown(h, lt, pos0, h[pos0])
  {
    r := h;
    var pos := pos0;
    var newitem := r[pos];
    while 0 < pos && lt(newitem, r[(pos - 1) / 2])
      invariant pos < |r| == |h|
      invariant SiftedDown(r, lt, pos, newitem) == SiftedDown(h, lt, pos0, newitem)
    {
      var parentpos := (pos - 1) / 2;
      r := r[pos := r[parentpos]];
      pos := parentpos;
    }
    r := r[pos := newitem];
  }

  /** `_siftup(heap, 0)`, the only call `heappushpop` makes. */
  method SiftUp<T>(h: seq<T>, lt: (T, T) -> bool, pos0: nat) returns (r: seq<T>)
    requires pos0 == 0 < |h|
    ensures r == SiftedUp(h, lt, pos0, h[pos0])
  {
    r := h;
    var pos := pos0;
    var newitem := r[pos];
    var childpos := 2 * pos + 1;
    while childpos < |r|
      invariant pos < |r| == |h| && childpos == 2 * pos + 1
      invariant SiftedUp(r, lt, pos, newitem) == SiftedUp(h, lt, pos0, newitem)
      decreases |r| - pos
    {
      var rightpos := childpos + 1;
      if rightpos < |r| && !lt(r[childpos], r[rightpos]) {
        childpos := rightpos;
      }
      r := r[pos := r[childpos]];
      pos := childpos;
      childpos := 2 * pos + 1;
    }
    SiftedDownHole(r, lt, pos, newitem, newitem);
    r := r[pos := newitem];
    r := SiftDown(r, lt, pos);
  }

  /** `heapq.heappush(heap, item)` */
  method HeapPush<T>(h: seq<T>, lt: (T, T) -> bool, item: T) returns (r: seq<T>)
    ensures r == Pushed(h, lt, item)
  {
    r := h + [item];
    r := SiftDown(r, lt, |r| - 1);
  }

  /** `heapq.heappushpop(heap, item)`: returns the new list and the popped item. */
  method HeapPushPop<T>(h: seq<T>, lt: (T, T) -> bool, item0: T) returns (r: seq<T>, item: T)
    ensures (r, item) == PushPopped(h, lt, item0)
  {
    r, item := h, item0;
    if 0 < |r| && lt(r[0], item) {
      item, r := r[0], r[0 := item];
      SiftedUpHole(h, lt, 0, item0, item0);
      r := SiftUp(r, lt, 0);
    }
  }

  // ---------------------------------------------------------------------
  // What heapq promises

  /** The root of a heap is its minimum. */
  lemma HeapMin<T(!new)>(h: seq<T>, lt: (T, T) -> bool)
    requires StrictTotalOrder(lt) && IsHeap(h, lt)
    ensures forall i :: 0 <= i < |h| ==> !lt(h[i], h[0])
  {
    forall i | 0 <= i < |h| ensures !lt(h[i], h[0]) {
      HeapMinAt(h, lt, i);
    }
  }

  lemma {:induction false} HeapMinAt<T(!new)>(h: seq<T>, lt: (T, T) -> bool, i: nat)
    requires StrictTotalOrder(lt) && IsHeap(h, lt) && i < |h|
    ensures !lt(h[i], h[0])
    decreases i
  {
    if 0 < i {
      HeapMinAt(h, lt, Parent(i));
    }
  }

  /** Swapping two slots keeps the multiset of elements. */
  lemma SwapMultiset<T>(s: seq<T>, i: nat, j: nat)
    requires i < |s| && j < |s|
    ensures multiset(s[i := s[j]][j := s[i]]) == multiset(s)
  {
  }

  /** `w` holds the sifted item at `pos`; every parent link holds except the
      one from `pos` up, and the parent of `pos` is no larger than the
      children of `pos`. */
  ghost predicate HoleUp<T>(w: seq<T>, lt: (T, T) -> bool, pos: nat) {
    && (forall i :: 0 < i < |w| && i != pos ==> !lt(w[i], w[Parent(i)]))
    && (0 < pos < |w| ==> forall i :: 0 < i < |w| && Parent(i) == pos ==> !lt(w[i], w[Parent(pos)]))
  }

  /** `h` has a hole at `pos`; every parent link not touching `pos` holds, and
      the parent of `pos` is no larger than the children of `pos`. */
  ghost predicate HoleDown<T>(h: seq<T>, lt: (T, T) -> bool, pos: nat) {
    && (forall i :: 0 < i < |h| && i != pos && Parent(i) != pos ==> !lt(h[i], h[Parent(i)]))
    && (0 < pos < |h| ==> forall i :: 0 < i < |h| && Parent(i) == pos ==> !lt(h[i], h[Parent(pos)]))
  }

  lemma {:induction false} SiftedDownSpec<T(!new)>(h: seq<T>, lt: (T, T) -> bool, pos: nat, x: T)
    requires StrictTotalOrder(lt) && pos < |h| && HoleUp(h[pos := x], lt, pos)
    ensures IsHeap(SiftedDown(h, lt, pos, x), lt)
    ensures multiset(SiftedDown(h, lt, pos, x)) == multiset(h[pos := x])
    ensures |SiftedDown(h, lt, pos, x)| == |h|
    decreases pos
  {
    var w := h[pos := x];
    if 0 < pos && lt(x, h[Parent(pos)]) {
      var par := Parent(pos);
      var h2 := h[pos := h[par]];
      assert h2[par := x] == w[pos := w[par]][par := w[pos]];
      SwapMultiset(w, pos, par);
      HoleUpStep(w, lt, pos);
      SiftedDownSpec(h2, lt, par, x);
    }
  }

  /** Swapping the sifted item with a larger parent moves the hole one level up. */
  lemma HoleUpStep<T(!new)>(w: seq<T>, lt: (T, T) -> bool, pos: nat)
    requires StrictTotalOrder(lt) && 0 < pos < |w| && HoleUp(w, lt, pos) && lt(w[pos], w[Parent(pos)])
    ensures HoleUp(w[pos := w[Parent(pos)]][Parent(pos) := w[pos]], lt, Parent(pos))
  {
    var par, x := Parent(pos), w[pos];
    var w2 := w[pos := w[par]][par := x];
    forall i | 0 < i < |w2| && i != par ensures !lt(w2[i], w2[Parent(i)]) {
      if i != pos && Parent(i) != pos && Parent(i) == par {
        assert !lt(w[i], w[par]);
        assert lt(x, w[i]);
      }
    }
    if 0 < par {
      forall i | 0 < i < |w2| && Parent(i) == par ensures !lt(w2[i], w2[Parent(par)]) {
        if i != pos {
          assert !lt(w[i], w[par]) && !lt(w[par], w[Parent(par)]);
        }
      }
    }
  }

  lemma ParentOf(i: nat, p: nat)
    requires 0 < i
    ensures Parent(i) == p <==> i == 2 * p + 1 || i == 2 * p + 2
  {
  }

  /** One step of `_siftup`: moving the smaller child `c` of `pos` into the
      hole moves the hole to `c`. */
  lemma HoleDownStep<T(!new)>(h: seq<T>, lt: (T, T) -> bool, pos: nat, c: nat)
    requires StrictTotalOrder(lt) && pos < |h| && HoleDown(h, lt, pos)
    requires c < |h| && (c == 2 * pos + 1 || c == 2 * pos + 2)
    requires forall i :: 0 < i < |h| && Parent(i) == pos ==> !lt(h[i], h[c])
    ensures HoleDown(h[pos := h[c]], lt, c)
  {
    var h2 := h[pos := h[c]];
    ParentOf(c, pos);
    forall i | 0 < i < |h2| && i != c && Parent(i) != c ensures !lt(h2[i], h2[Parent(i)]) {
      if i == pos {
        assert 0 < pos;
        assert !lt(h[c], h[Parent(pos)]);
      } else if Parent(i) == pos {
        assert !lt(h[i], h[c]);
      } else {
        assert Parent(i) != pos;
        assert h2[i] == h[i] && h2[Parent(i)] == h[Parent(i)];
      }
    }
    forall i | 0 < i < |h2| && Parent(i) == c ensures !lt(h2[i], h2[Parent(c)]) {
      ParentOf(i, pos);
      assert i != pos && i != c;
      assert !lt(h[i], h[c]);
    }
  }

  lemma {:induction false} SiftedUpSpec<T(!new)>(h: seq<T>, lt: (T, T) -> bool, pos: nat, x: T)
    requires StrictTotalOrder(lt) && pos < |h| && HoleDown(h, lt, pos)
    ensures IsHeap(SiftedUp(h, lt, pos, x), lt)
    ensures multiset(SiftedUp(h, lt, pos, x)) == multiset(h[pos := x])
    ensures |SiftedUp(h, lt, pos, x)| == |h|
    decreases |h| - pos
  {
    var child := 2 * pos + 1;
    if child < |h| {
      var c := if child + 1 < |h| && !lt(h[child], h[child + 1]) then child + 1 else child;
      SmallerChild(h, lt, pos, c);
      HoleDownStep(h, lt, pos, c);
      var h2 := h[pos := h[c]];
      assert SiftedUp(h, lt, pos, x) == SiftedUp(h2, lt, c, x);
      SiftedUpSpec(h2, lt, c, x);
      HoleMoveMultiset(h, pos, c, x);
    } else {
      LeafHole(h, lt, pos, x);
      SiftedDownSpec(h, lt, pos, x);
    }
  }

  /** The child `_siftup` picks is no larger than its sibling. */
  lemma SmallerChild<T(!new)>(h: seq<T>, lt: (T, T) -> bool, pos: nat, c: nat)
    requires StrictTotalOrder(lt) && 2 * pos + 1 < |h|
    requires c == if 2 * pos + 2 < |h| && !lt(h[2 * pos + 1], h[2 * pos + 2]) then 2 * pos + 2 else 2 * pos + 1
    ensures forall i :: 0 < i < |h| && Parent(i) == pos ==> !lt(h[i], h[c])
  {
    forall i | 0 < i < |h| && Parent(i) == pos ensures !lt(h[i], h[c]) {
      ParentOf(i, pos);
    }
  }

  /** Moving `h[c]` into the hole at `pos` and then filling the hole at `c`
      with `x` gives the elements of `h` with `x` in the first hole. */
  lemma HoleMoveMultiset<T>(h: seq<T>, pos: nat, c: nat, x: T)
    requires pos < |h| && c < |h| && pos != c
    ensures multiset(h[pos := h[c]][c := x]) == multiset(h[pos := x])
  {
    var w := h[pos := x];
    assert h[pos := h[c]][c := x] == w[pos := w[c]][c := w[pos]];
    SwapMultiset(w, pos, c);
  }

  /** A hole that reaches a leaf can take any item. */
  lemma LeafHole<T>(h: seq<T>, lt: (T, T) -> bool, pos: nat, x: T)
    requires pos < |h| <= 2 * pos + 1 && HoleDown(h, lt, pos)
    ensures HoleUp(h[pos := x], lt, pos)
  {
    var w := h[pos := x];
    forall i | 0 < i < |w| && i != pos ensures !lt(w[i], w[Parent(i)]) {
      ParentOf(i, pos);
    }
    forall i | 0 < i < |w| ensures Parent(i) != pos {
      ParentOf(i, pos);
    }
  }

  /** What sits in the hole does not matter to `_siftdown`. */
  lemma SiftedDownHole<T>(h: seq<T>, lt: (T, T) -> bool, pos: nat, x: T, y: T)
    requires pos < |h|
    ensures SiftedDown(h[pos := y], lt, pos, x) == SiftedDown(h, lt, pos, x)
  {
    if 0 < pos && lt(x, h[Parent(pos)]) {
      assert h[pos := y][pos := h[Parent(pos)]] == h[pos := h[Parent(pos)]];
    }
  }

  /** What sits in the hole does not matter to `_siftup`. */
  lemma SiftedUpHole<T>(h: seq<T>, lt: (T, T) -> bool, pos: nat, x: T, y: T)
    requires pos < |h|
    ensures SiftedUp(h[pos := y], lt, pos, x) == SiftedUp(h, lt, pos, x)
  {
    var child := 2 * pos + 1;
    if child < |h| {
      var c := if child + 1 < |h| && !lt(h[child], h[child + 1]) then child + 1 else child;
      assert h[pos := y][pos := h[c]] == h[pos := h[c]];
    } else {
      SiftedDownHole(h, lt, pos, x, y);
    }
  }

  /** `heappush` keeps the heap property and adds exactly `item`. */
  lemma PushedSpec<T(!new)>(h: seq<T>, lt: (T, T) -> bool, item: T)
    requires StrictTotalOrder(lt) && IsHeap(h, lt)
    ensures IsHeap(Pushed(h, lt, item), lt)
    ensures multiset(Pushed(h, lt, item)) == multiset(h) + multiset{item}
    ensures |Pushed(h, lt, item)| == |h| + 1
  {
    var w := h + [item];
    assert w[|h| := item] == w;
    SiftedDownSpec(w, lt, |h|, item);
  }

  /** `heappushpop` keeps the heap property. When the heap is empty or `item`
      is not strictly greater than the root, nothing changes and `item` comes
      back; otherwise the root is popped and `item` takes its place. */
  lemma PushPoppedSpec<T(!new)>(h: seq<T>, lt: (T, T) -> bool, item: T)
    requires StrictTotalOrder(lt) && IsHeap(h, lt)
    ensures IsHeap(PushPopped(h, lt, item).0, lt)
    ensures |PushPopped(h, lt, item).0| == |h|
    ensures 0 < |h| && lt(h[0], item) ==>
              && PushPopped(h, lt, item).1 == h[0]
              && multiset(PushPopped(h, lt, item).0) == multiset(h) - multiset{h[0]} + multiset{item}
    ensures !(0 < |h| && lt(h[0], item)) ==> PushPopped(h, lt, item) == (h, item)
  {
    if 0 < |h| && lt(h[0], item) {
      SiftedUpSpec(h, lt, 0, item);
      assert h == [h[0]] + h[1..] && h[0 := item] == [item] + h[1..];
    }
  }
}
