/** Sequence helpers shared by the model: duplicate-freedom and
    first-occurrence de-duplication. */
module Seqs {

  /** No element occurs twice. */
  ghost predicate Distinct<T(!new)>(s: seq<T>) {
    forall x :: multiset(s)[x] <= 1
  }

  /** The elements of `s` in order of first occurrence. */
  function Dedup<T(==)>(s: seq<T>): seq<T>
    decreases |s|
  {
    if s == [] then []
    else if s[|s| - 1] in s[..|s| - 1] then Dedup(s[..|s| - 1])
    else Dedup(s[..|s| - 1]) + [s[|s| - 1]]
  }

  lemma {:induction false} DedupSpec<T(!new)>(s: seq<T>)
    ensures Distinct(Dedup(s))
    ensures forall x :: x in Dedup(s) <==> x in s
    decreases |s|
  {
    if s != [] {
      var p, x := s[..|s| - 1], s[|s| - 1];
      assert s == p + [x];
      DedupSpec(p);
      if x !in p {
        assert multiset(Dedup(s)) == multiset(Dedup(p)) + multiset{x};
      }
    }
  }

  /** One more element: kept at the end exactly when it is new. */
  lemma DedupSnoc<T>(s: seq<T>, x: T)
    ensures Dedup(s + [x]) == if x in s then Dedup(s) else Dedup(s) + [x]
  {
    assert (s + [x])[..|s|] == s;
  }

  /** Dropping the last element keeps a sequence duplicate-free, and that
      element occurs nowhere before it. */
  lemma DistinctLast<T(!new)>(s: seq<T>)
    requires Distinct(s) && s != []
    ensures s[|s| - 1] !in s[..|s| - 1] && Distinct(s[..|s| - 1])
  {
    var p, x := s[..|s| - 1], s[|s| - 1];
    assert s == p + [x];
    assert multiset(s) == multiset(p) + multiset{x};
    assert multiset(s)[x] == multiset(p)[x] + 1;
    forall y ensures multiset(p)[y] <= 1 {
      assert multiset(s)[y] <= 1;
    }
  }

  /** Distinct positions hold distinct elements. */
  lemma DistinctAt<T(!new)>(s: seq<T>, i: nat, j: nat)
    requires Distinct(s) && i < j < |s|
    ensures s[i] != s[j]
  {
    assert s == s[..j] + s[j..];
    assert s[i] in multiset(s[..j]) && s[j] in multiset(s[j..]);
    assert multiset(s) == multiset(s[..j]) + multiset(s[j..]);
    assert multiset(s[..j])[s[i]] >= 1 && multiset(s[j..])[s[j]] >= 1;
    assert multiset(s)[s[j]] <= 1;
  }

  lemma DistinctFirst<T(!new)>(s: seq<T>)
    requires Distinct(s) && s != []
    ensures s[0] !in s[1..] && Distinct(s[1..])
  {
    assert s == [s[0]] + s[1..];
    assert multiset(s) == multiset{s[0]} + multiset(s[1..]);
    assert multiset(s)[s[0]] == 1 + multiset(s[1..])[s[0]];
    forall x ensures multiset(s[1..])[x] <= 1 {
      assert multiset(s)[x] <= 1;
    }
  }

  lemma DistinctAppend<T(!new)>(s: seq<T>, x: T)
    requires Distinct(s) && x !in s
    ensures Distinct(s + [x])
  {
    assert multiset(s + [x]) == multiset(s) + multiset{x};
  }

  /** Python's `reversed`. */
  function Reverse<T>(s: seq<T>): seq<T>
    decreases |s|
  {
    if s == [] then [] else Reverse(s[1..]) + [s[0]]
  }

  lemma {:induction false} ReverseSpec<T>(s: seq<T>)
    ensures |Reverse(s)| == |s|
    ensures forall i :: 0 <= i < |s| ==> Reverse(s)[i] == s[|s| - 1 - i]
    ensures forall x :: x in Reverse(s) <==> x in s
    decreases |s|
  {
    if s != [] {
      ReverseSpec(s[1..]);
      assert s == [s[0]] + s[1..];
    }
  }
}
