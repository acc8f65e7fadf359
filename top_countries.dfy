/** `calc_top_countries` and its two selection helpers. `calc_top_parallel`
    keeps the three largest distinct totals and lists, for each, every
    country with that total; `calc_top_no_parallel` keeps the three largest
    `(total, country)` pairs. Both hand back a dict of at most three countries
    unchanged. */
module TopCountries {
  import opened Seqs
  import opened Strings
  import opened OrderedDicts
  import opened Heapq
  import opened BoundedTop
  import opened OrdersQuery
  import opened Aggregation

  /** What `calc_top_parallel` returns: the `country -> total` dict itself
      when it has at most three countries, else a `total -> [countries]` dict. */
  datatype TopResult =
    | ByCountry(totals: Totals)
    | ByQuantity(groups: OrderedDict<int, seq<string>>)

  /** Python's `<` on `int`. */
  function IntLess(a: int, b: int): bool {
    a < b
  }

  lemma IntLessOrder()
    ensures StrictTotalOrder(IntLess)
  {
  }

  /** Python's `<` on `(quantity, country)` tuples: by quantity, ties by country. */
  function PairLess(a: (int, string), b: (int, string)): bool {
    a.0 < b.0 || (a.0 == b.0 && StrLess(a.1, b.1))
  }

  lemma PairLessOrder()
    ensures StrictTotalOrder(PairLess)
  {
    forall a ensures !PairLess(a, a) {
      StrLessIrreflexive(a.1);
    }
    forall a, b, c | PairLess(a, b) && PairLess(b, c) ensures PairLess(a, c) {
      if a.0 == b.0 == c.0 {
        StrLessTransitive(a.1, b.1, c.1);
      }
    }
    forall a, b | a != b ensures PairLess(a, b) || PairLess(b, a) {
      if a.0 == b.0 {
        StrLessTotal(a.1, b.1);
      }
    }
  }

  // ---------------------------------------------------------------------
  // calc_top_parallel

  /** The totals of the countries `ks`, in order. */
  function Quantities(d: Totals, ks: seq<string>): seq<int>
    decreases |ks|
  {
    if ks == [] then [] else Quantities(d, ks[..|ks| - 1]) + [Get(d, ks[|ks| - 1], 0)]
  }

  /** The countries among `ks` whose total is `q`, in order. */
  function CountriesWith(d: Totals, ks: seq<string>, q: int): seq<string>
    decreases |ks|
  {
    if ks == [] then []
    else
      var k := ks[|ks| - 1];
      CountriesWith(d, ks[..|ks| - 1], q) + if Get(d, k, 0) == q then [k] else []
  }

  /** The heap `calc_top_parallel` ends with: the totals, each once in
      first-seen order, fed through the bounded heap. */
  function Retained(d: Totals): seq<int> {
    KeepTop(Dedup(Quantities(d, d.keys)), IntLess)
  }

  /** `for quantity in reversed(h): top[quantity] = quantity_to_country[quantity]` */
  function Grouped(d: Totals, h: seq<int>): OrderedDict<int, seq<string>>
    decreases |h|
  {
    if h == [] then Empty() else Put(Grouped(d, h[1..]), h[0], CountriesWith(d, d.keys, h[0]))
  }

  function TopParallel(d: Totals): TopResult {
    if |d.keys| <= K then ByCountry(d) else ByQuantity(Grouped(d, Retained(d)))
  }

  lemma QuantitiesSnoc(d: Totals, ks: seq<string>, k: string)
    ensures Quantities(d, ks + [k]) == Quantities(d, ks) + [Get(d, k, 0)]
    ensures forall q :: CountriesWith(d, ks + [k], q) ==
              CountriesWith(d, ks, q) + if Get(d, k, 0) == q then [k] else []
  {
    assert (ks + [k])[..|ks|] == ks;
  }

  /** A total occurs among the countries' totals exactly when some country has it. */
  lemma {:induction false} QuantitiesSpec(d: Totals, ks: seq<string>)
    ensures |Quantities(d, ks)| == |ks|
    ensures forall q :: q in Quantities(d, ks) <==> exists k :: k in ks && Get(d, k, 0) == q
    decreases |ks|
  {
    if ks != [] {
      var p := ks[..|ks| - 1];
      assert ks == p + [ks[|ks| - 1]];
      QuantitiesSpec(d, p);
    }
  }

  /** A group lists exactly the countries with its total, each once. */
  lemma {:induction false} CountriesWithSpec(d: Totals, ks: seq<string>, q: int)
    ensures forall c :: c in CountriesWith(d, ks, q) <==> c in ks && Get(d, c, 0) == q
    ensures Distinct(ks) ==> Distinct(CountriesWith(d, ks, q))
    decreases |ks|
  {
    if ks != [] {
      var p, k := ks[..|ks| - 1], ks[|ks| - 1];
      assert ks == p + [k];
      CountriesWithSpec(d, p, q);
      if Distinct(ks) {
        DistinctLast(ks);
        if Get(d, k, 0) == q {
          DistinctAppend(CountriesWith(d, p, q), k);
        }
      }
    }
  }

  /** No country has a total that does not occur among the totals. */
  lemma {:induction false} CountriesWithNone(d: Totals, ks: seq<string>, q: int)
    ensures CountriesWith(d, ks, q) == [] <==> q !in Quantities(d, ks)
    decreases |ks|
  {
    if ks != [] {
      CountriesWithNone(d, ks[..|ks| - 1], q);
    }
  }

  /** A group keeps the dict's order: selecting from two runs of keys is
      selecting from each in turn. */
  lemma {:induction false} CountriesWithAppend(d: Totals, a: seq<string>, b: seq<string>, q: int)
    ensures CountriesWith(d, a + b, q) == CountriesWith(d, a, q) + CountriesWith(d, b, q)
    decreases |b|
  {
    if b == [] {
      assert a + b == a;
    } else {
      var b', k := b[..|b| - 1], b[|b| - 1];
      assert (a + b)[..|a + b| - 1] == a + b' && (a + b)[|a + b| - 1] == k;
      CountriesWithAppend(d, a, b', q);
    }
  }

  /** The retained heap holds the largest distinct totals: as many as there
      are distinct totals, up to three; each once; each the total of some
      country; and every total left out is smaller than every one kept. */
  lemma RetainedIsTop(d: Totals)
    ensures var h, qs := Retained(d), Quantities(d, d.keys);
            && IsHeap(h, IntLess)
            && |h| == Min(K, |Dedup(qs)|)
            && Distinct(h)
            && (forall q :: q in h ==> q in qs)
            && (|Dedup(qs)| <= K ==> forall q :: q in qs ==> q in h)
            && (forall q, q' :: q in qs && q !in h && q' in h ==> q < q')
  {
    var qs := Quantities(d, d.keys);
    var s := Dedup(qs);
    var h := Retained(d);
    assert h == KeepTop(s, IntLess);
    IntLessOrder();
    DedupSpec(qs);
    KeepTopIsTop(s, IntLess);
    assert IsTop(h, s, IntLess);
    forall q, q' | q in qs && q !in h && q' in h ensures q < q' {
      assert q in s && IntLess(q, q');
    }
  }

  /** The groups dict lists the totals in `reversed` order and maps each to
      the countries with exactly that total. */
  lemma {:induction false} GroupedSpec(d: Totals, h: seq<int>)
    requires Distinct(h)
    ensures Grouped(d, h).Valid()
    ensures Grouped(d, h).keys == Reverse(h)
    ensures forall q :: q in Grouped(d, h).vals ==> Grouped(d, h).vals[q] == CountriesWith(d, d.keys, q)
    decreases |h|
  {
    if h != [] {
      DistinctFirst(h);
      GroupedSpec(d, h[1..]);
      ReverseSpec(h[1..]);
      PutValid(Grouped(d, h[1..]), h[0], CountriesWith(d, d.keys, h[0]));
    }
  }

  /** The last total listed is the smallest one. */
  lemma LastKeySmallest(h: seq<int>)
    requires IsHeap(h, IntLess) && Distinct(h)
    ensures |Reverse(h)| == |h|
    ensures forall i :: 0 <= i < |h| - 1 ==> Reverse(h)[|h| - 1] < Reverse(h)[i]
  {
    ReverseSpec(h);
    IntLessOrder();
    forall i | 0 <= i < |h| - 1 ensures Reverse(h)[|h| - 1] < Reverse(h)[i] {
      RootLeast(h, IntLess, |h| - 1 - i);
    }
  }

  /** What `calc_top_parallel` promises. At most three countries: the input
      comes back unchanged. Otherwise the keys are the retained totals in
      `reversed(minheap)` order, the smallest of them last, and each maps to
      every country with that total, each once, in the dict's order. */
  lemma TopParallelSpec(d: Totals)
    requires d.Valid()
    ensures |d.keys| <= K ==> TopParallel(d) == ByCountry(d)
    ensures |d.keys| > K ==>
              && TopParallel(d).ByQuantity?
              && var g := TopParallel(d).groups;
              && g.Valid()
              && g.keys == Reverse(Retained(d))
              && |g.keys| == Min(K, |Dedup(Quantities(d, d.keys))|)
              && (forall i :: 0 <= i < |g.keys| - 1 ==> g.keys[|g.keys| - 1] < g.keys[i])
              && (forall q :: q in g.vals ==> g.vals[q] == CountriesWith(d, d.keys, q))
              && (forall q :: q in g.vals ==> Distinct(g.vals[q]))
              && (forall q :: q in g.vals ==> forall c :: c in g.vals[q] <==> c in d.vals && d.vals[c] == q)
              && (forall q :: q in g.vals ==> q in Quantities(d, d.keys))
              && (forall q :: q in Quantities(d, d.keys) && q !in g.vals ==> forall q' :: q' in g.vals ==> q < q')
  {
    if |d.keys| > K {
      RetainedIsTop(d);
      GroupsOf(d, Retained(d));
      GroupsLargest(d);
    }
  }

  /** Every grouped total is some country's total, and every total with no
      group is below every total with one. */
  lemma GroupsLargest(d: Totals)
    ensures var g := Grouped(d, Retained(d));
            forall q :: q in g.vals ==> q in Quantities(d, d.keys)
    ensures var g := Grouped(d, Retained(d));
            forall q :: q in Quantities(d, d.keys) && q !in g.vals ==> forall q' :: q' in g.vals ==> q < q'
  {
    var h := Retained(d);
    RetainedIsTop(d);
    GroupsKeys(d, h);
  }

  /** The groups dict has a key exactly for each heap entry. */
  lemma {:induction false} GroupsKeys(d: Totals, h: seq<int>)
    ensures forall q :: q in Grouped(d, h).vals <==> q in h
    decreases |h|
  {
    if h != [] {
      GroupsKeys(d, h[1..]);
      assert h == [h[0]] + h[1..];
    }
  }

  /** The groups dict for any heap of distinct totals. */
  lemma GroupsOf(d: Totals, h: seq<int>)
    requires d.Valid() && IsHeap(h, IntLess) && Distinct(h)
    ensures var g := Grouped(d, h);
            && g.Valid()
            && g.keys == Reverse(h)
            && |g.keys| == |h|
            && (forall i :: 0 <= i < |g.keys| - 1 ==> g.keys[|g.keys| - 1] < g.keys[i])
            && (forall q :: q in g.vals ==> g.vals[q] == CountriesWith(d, d.keys, q))
            && (forall q :: q in g.vals ==> Distinct(g.vals[q]))
            && (forall q :: q in g.vals ==> forall c :: c in g.vals[q] <==> c in d.vals && d.vals[c] == q)
  {
    GroupedSpec(d, h);
    LastKeySmallest(h);
    GroupMembers(d, Grouped(d, h));
  }

  /** Groups taken from the dict list each country with their total once. */
  lemma GroupMembers(d: Totals, g: OrderedDict<int, seq<string>>)
    requires d.Valid()
    requires forall q :: q in g.vals ==> g.vals[q] == CountriesWith(d, d.keys, q)
    ensures forall q :: q in g.vals ==> Distinct(g.vals[q])
    ensures forall q :: q in g.vals ==> forall c :: c in g.vals[q] <==> c in d.vals && d.vals[c] == q
  {
    forall q | q in g.vals
      ensures Distinct(g.vals[q])
      ensures forall c :: c in g.vals[q] <==> c in d.vals && d.vals[c] == q
    {
      CountriesWithSpec(d, d.keys, q);
    }
  }

  /** `quantity_to_country` after the countries `ks`: the totals seen so far,
      each mapped to the countries with it. */
  ghost predicate TableOf(d: Totals, ks: seq<string>, table: map<int, seq<string>>) {
    && (forall q :: q in table <==> q in Quantities(d, ks))
    && (forall q :: q in table ==> table[q] == CountriesWith(d, ks, q))
  }

  /** One country of the first pass: a total seen before leaves the heap
      alone, a new one is fed to it. */
  lemma HeapStep(d: Totals, ks: seq<string>, k: string, table: map<int, seq<string>>)
    requires forall q :: q in table <==> q in Quantities(d, ks)
    ensures var q, h := Get(d, k, 0), KeepTop(Dedup(Quantities(d, ks)), IntLess);
            KeepTop(Dedup(Quantities(d, ks + [k])), IntLess) == if q in table then h else Feed(h, IntLess, q)
  {
    var q := Get(d, k, 0);
    QuantitiesSnoc(d, ks, k);
    DedupSnoc(Quantities(d, ks), q);
    KeepTopSnoc(Dedup(Quantities(d, ks)), IntLess, q);
  }

  /** One country of the first pass: appending it to the list of its total
      keeps `quantity_to_country` in step with the countries seen so far. */
  lemma TableStep(d: Totals, ks: seq<string>, k: string, table: map<int, seq<string>>)
    requires TableOf(d, ks, table)
    ensures var q := Get(d, k, 0);
            TableOf(d, ks + [k], table[q := (if q in table then table[q] else []) + [k]])
  {
    var q := Get(d, k, 0);
    QuantitiesSnoc(d, ks, k);
    CountriesWithNone(d, ks, q);
  }

  /** The body of the first pass, for the `i`-th country `k` with total `q`. */
  lemma ParallelStep(d: Totals, i: nat, k: string, q: int, minheap: seq<int>, table: map<int, seq<string>>)
    requires i < |d.keys| && k == d.keys[i] && q == Get(d, k, 0)
    requires minheap == KeepTop(Dedup(Quantities(d, d.keys[..i])), IntLess) && TableOf(d, d.keys[..i], table)
    ensures q in table ==> minheap == KeepTop(Dedup(Quantities(d, d.keys[..i + 1])), IntLess)
    ensures q !in table ==> Feed(minheap, IntLess, q) == KeepTop(Dedup(Quantities(d, d.keys[..i + 1])), IntLess)
    ensures TableOf(d, d.keys[..i + 1], table[q := (if q in table then table[q] else []) + [k]])
  {
    assert d.keys[..i + 1] == d.keys[..i] + [k];
    HeapStep(d, d.keys[..i], k, table);
    TableStep(d, d.keys[..i], k, table);
  }

  /** Every retained total has its entry in the finished table. */
  lemma RetainedInTable(d: Totals, table: map<int, seq<string>>)
    requires TableOf(d, d.keys, table)
    ensures forall q :: q in Retained(d) ==> q in table && table[q] == CountriesWith(d, d.keys, q)
  {
    RetainedIsTop(d);
  }

  /** The first pass's body for the `i`-th country: a total not seen before
      goes to the heap, and the country is appended to the list of its total. */
  method VisitCountry(d: Totals, i: nat, minheap: seq<int>, quantityToCountry: map<int, seq<string>>)
    returns (minheap': seq<int>, quantityToCountry': map<int, seq<string>>)
    requires d.Valid() && i < |d.keys|
    requires minheap == KeepTop(Dedup(Quantities(d, d.keys[..i])), IntLess) && TableOf(d, d.keys[..i], quantityToCountry)
    ensures minheap' == KeepTop(Dedup(Quantities(d, d.keys[..i + 1])), IntLess) && TableOf(d, d.keys[..i + 1], quantityToCountry')
  {
    var country := d.keys[i];
    var quantity := d.vals[country];
    ParallelStep(d, i, country, quantity, minheap, quantityToCountry);
    minheap' := minheap;
    if quantity !in quantityToCountry {
      minheap' := Offer(minheap, IntLess, quantity);
    }
    var countries := if quantity in quantityToCountry then quantityToCountry[quantity] else [];
    quantityToCountry' := quantityToCountry[quantity := countries + [country]];
  }

  /** The second pass: `reversed(minheap)` makes `top` take the totals from
      the last heap entry to the first, each with its countries. */
  method EmitGroups(d: Totals, minheap: seq<int>, quantityToCountry: map<int, seq<string>>)
    returns (top: OrderedDict<int, seq<string>>)
    requires forall q :: q in minheap ==> q in quantityToCountry && quantityToCountry[q] == CountriesWith(d, d.keys, q)
    ensures top == Grouped(d, minheap)
  {
    top := Empty();
    var j := |minheap|;
    while 0 < j
      invariant 0 <= j <= |minheap|
      invariant top == Grouped(d, minheap[j..])
    {
      j := j - 1;
      assert minheap[j..][1..] == minheap[j + 1..];
      assert minheap[j] in minheap;
      top := Put(top, minheap[j], quantityToCountry[minheap[j]]);
    }
  }

  /** `calc_top_parallel` as written: one pass that fills the heap of
      distinct totals and the `quantity -> [countries]` table together, then
      a pass over `reversed(minheap)`. */
  method CalcTopParallel(countryToQuantity: Totals) returns (r: TopResult)
    requires countryToQuantity.Valid()
    ensures r == TopParallel(countryToQuantity)
  {
    var d := countryToQuantity;
    if |d.keys| <= K {
      return ByCountry(d);
    }
    var quantityToCountry: map<int, seq<string>> := map[];
    var minheap: seq<int> := [];
    var i := 0;
    assert d.keys[..0] == [];
    while i < |d.keys|
      invariant 0 <= i <= |d.keys|
      invariant minheap == KeepTop(Dedup(Quantities(d, d.keys[..i])), IntLess)
      invariant TableOf(d, d.keys[..i], quantityToCountry)
    {
      minheap, quantityToCountry := VisitCountry(d, i, minheap, quantityToCountry);
      i := i + 1;
    }
    assert d.keys[..i] == d.keys;
    RetainedInTable(d, quantityToCountry);
    var top := EmitGroups(d, minheap, quantityToCountry);
    r := ByQuantity(top);
  }

  // ---------------------------------------------------------------------
  // calc_top_no_parallel

  /** `(quantity, country)` for each country of `ks`, in order. */
  function Pairs(d: Totals, ks: seq<string>): seq<(int, string)>
    decreases |ks|
  {
    if ks == [] then [] else Pairs(d, ks[..|ks| - 1]) + [(Get(d, ks[|ks| - 1], 0), ks[|ks| - 1])]
  }

  /** `{country: quantity for quantity, country in reversed(h)}` */
  function ByCountryOf(h: seq<(int, string)>): Totals
    decreases |h|
  {
    if h == [] then Empty() else Put(ByCountryOf(h[1..]), h[0].1, h[0].0)
  }

  function TopNoParallel(d: Totals): Totals {
    if |d.keys| <= K then d else ByCountryOf(KeepTop(Pairs(d, d.keys), PairLess))
  }

  lemma PairsSnoc(d: Totals, ks: seq<string>, k: string)
    ensures Pairs(d, ks + [k]) == Pairs(d, ks) + [(Get(d, k, 0), k)]
  {
    assert (ks + [k])[..|ks|] == ks;
  }

  /** One pair per country, each country with its own total. */
  lemma {:induction false} PairsSpec(d: Totals, ks: seq<string>)
    requires Distinct(ks)
    ensures |Pairs(d, ks)| == |ks|
    ensures Distinct(Pairs(d, ks))
    ensures forall p :: p in Pairs(d, ks) <==> p.1 in ks && p.0 == Get(d, p.1, 0)
    decreases |ks|
  {
    if ks != [] {
      var p, k := ks[..|ks| - 1], ks[|ks| - 1];
      assert ks == p + [k];
      DistinctLast(ks);
      PairsSpec(d, p);
      DistinctAppend(Pairs(d, p), (Get(d, k, 0), k));
    }
  }

  /** No two pairs name the same country. */
  ghost predicate DistinctNames(h: seq<(int, string)>) {
    forall i, j :: 0 <= i < j < |h| ==> h[i].1 != h[j].1
  }

  /** The dict built from pairs naming distinct countries lists them in
      `reversed` order, each country with its pair's quantity. */
  lemma ByCountryOfSpec(h: seq<(int, string)>)
    requires DistinctNames(h)
    ensures ByCountryOf(h).Valid()
    ensures |ByCountryOf(h).keys| == |h|
    ensures forall i :: 0 <= i < |h| ==> ByCountryOf(h).keys[i] == h[|h| - 1 - i].1
    ensures forall p :: p in h ==> p.1 in ByCountryOf(h).vals && ByCountryOf(h).vals[p.1] == p.0
    ensures forall c :: c in ByCountryOf(h).vals ==> (ByCountryOf(h).vals[c], c) in h
  {
    ByCountryOfKeys(h);
    ByCountryOfVals(h);
  }

  lemma {:induction false} ByCountryOfVals(h: seq<(int, string)>)
    requires DistinctNames(h)
    ensures forall p :: p in h ==> p.1 in ByCountryOf(h).vals && ByCountryOf(h).vals[p.1] == p.0
    ensures forall c :: c in ByCountryOf(h).vals ==> (ByCountryOf(h).vals[c], c) in h
    decreases |h|
  {
    if h != [] {
      var t, x := h[1..], h[0];
      NamesTail(h);
      ByCountryOfVals(t);
      var b := ByCountryOf(t);
      assert ByCountryOf(h).vals == b.vals[x.1 := x.0];
      forall p | p in h ensures p.1 in ByCountryOf(h).vals && ByCountryOf(h).vals[p.1] == p.0 {
        if p != x {
          assert p in t;
        }
      }
    }
  }

  lemma {:induction false} ByCountryOfKeys(h: seq<(int, string)>)
    requires DistinctNames(h)
    ensures ByCountryOf(h).Valid()
    ensures |ByCountryOf(h).keys| == |h|
    ensures forall i :: 0 <= i < |h| ==> ByCountryOf(h).keys[i] == h[|h| - 1 - i].1
    decreases |h|
  {
    if h != [] {
      var t, x := h[1..], h[0];
      NamesTail(h);
      ByCountryOfKeys(t);
      ByCountryOfVals(t);
      var b := ByCountryOf(t);
      assert x.1 !in b.vals;
      PutValid(b, x.1, x.0);
      var r := ByCountryOf(h);
      assert r.keys == b.keys + [x.1];
      forall i | 0 <= i < |h| ensures r.keys[i] == h[|h| - 1 - i].1 {
        if i < |t| {
          assert r.keys[i] == b.keys[i] == t[|t| - 1 - i].1;
        }
      }
    }
  }

  /** The pairs after the first name other countries than the first. */
  lemma NamesTail(h: seq<(int, string)>)
    requires DistinctNames(h) && h != []
    ensures DistinctNames(h[1..])
    ensures forall p :: p in h[1..] ==> p.1 != h[0].1
  {
    var t := h[1..];
    forall i, j | 0 <= i < j < |t| ensures t[i].1 != t[j].1 {
      assert t[i] == h[i + 1] && t[j] == h[j + 1];
    }
    forall p | p in t ensures p.1 != h[0].1 {
      var i :| 0 <= i < |t| && t[i] == p;
      assert h[i + 1] == p;
    }
  }

  /** What `calc_top_no_parallel` promises. At most three countries: the
      input comes back unchanged. Otherwise exactly three countries come back,
      each with its own total: the three largest `(total, country)` pairs (ties
      on the total broken by country name), in `reversed(minheap)` order with
      the smallest pair last. */
  lemma TopNoParallelSpec(d: Totals)
    requires d.Valid()
    ensures |d.keys| <= K ==> TopNoParallel(d) == d
    ensures |d.keys| > K ==>
              var r := TopNoParallel(d);
              && r.Valid()
              && |r.keys| == K
              && (forall c :: c in r.vals ==> c in d.vals && r.vals[c] == d.vals[c])
              && (forall c, c' :: c in d.vals && c !in r.vals && c' in r.vals ==>
                    PairLess((d.vals[c], c), (d.vals[c'], c')))
              && (forall i :: 0 <= i < K - 1 ==>
                    PairLess((r.vals[r.keys[K - 1]], r.keys[K - 1]), (r.vals[r.keys[i]], r.keys[i])))
  {
    if |d.keys| > K {
      var ps := Pairs(d, d.keys);
      PairsSpec(d, d.keys);
      PairLessOrder();
      KeepTopIsTop(ps, PairLess);
      var h := KeepTop(ps, PairLess);
      NoParallelNames(d, h);
      ByCountryOfSpec(h);
      var r := ByCountryOf(h);
      forall c | c in r.vals ensures c in d.vals && r.vals[c] == d.vals[c] {
        assert (r.vals[c], c) in ps;
      }
      forall c, c' | c in d.vals && c !in r.vals && c' in r.vals
        ensures PairLess((d.vals[c], c), (d.vals[c'], c'))
      {
        assert (d.vals[c], c) in ps;
        assert (d.vals[c], c) !in h;
        assert (r.vals[c'], c') in h;
      }
      forall i | 0 <= i < K - 1
        ensures PairLess((r.vals[r.keys[K - 1]], r.keys[K - 1]), (r.vals[r.keys[i]], r.keys[i]))
      {
        var j := K - 1 - i;
        assert h[0] in h && h[j] in h;
        RootLeast(h, PairLess, j);
      }
    }
  }

  /** The retained pairs name distinct countries. */
  lemma NoParallelNames(d: Totals, h: seq<(int, string)>)
    requires Distinct(h) && forall p :: p in h ==> p.0 == Get(d, p.1, 0)
    ensures DistinctNames(h)
  {
    forall i, j | 0 <= i < j < |h| ensures h[i].1 != h[j].1 {
      assert h[i] in h && h[j] in h;
      DistinctAt(h, i, j);
    }
  }

  /** One country of the loop feeds its pair to the heap. */
  lemma PairsHeapStep(d: Totals, ks: seq<string>, k: string)
    ensures KeepTop(Pairs(d, ks + [k]), PairLess) == Feed(KeepTop(Pairs(d, ks), PairLess), PairLess, (Get(d, k, 0), k))
  {
    PairsSnoc(d, ks, k);
    KeepTopSnoc(Pairs(d, ks), PairLess, (Get(d, k, 0), k));
  }

  /** `calc_top_no_parallel` as written. */
  method CalcTopNoParallel(countryToQuantity: Totals) returns (r: Totals)
    requires countryToQuantity.Valid()
    ensures r == TopNoParallel(countryToQuantity)
  {
    var d := countryToQuantity;
    var minheap: seq<(int, string)> := [];
    if |d.keys| <= K {
      r := d;
    } else {
      var i := 0;
      assert d.keys[..0] == [];
      while i < |d.keys|
        invariant 0 <= i <= |d.keys|
        invariant minheap == KeepTop(Pairs(d, d.keys[..i]), PairLess)
      {
        var country := d.keys[i];
        var quantity := d.vals[country];
        var quantityCountryPair := (quantity, country);
        assert d.keys[..i + 1] == d.keys[..i] + [country];
        PairsHeapStep(d, d.keys[..i], country);
        minheap := Offer(minheap, PairLess, quantityCountryPair);
        i := i + 1;
      }
      assert d.keys[..i] == d.keys;
      r := ByCountryOf(minheap);
    }
  }

  // ---------------------------------------------------------------------
  // calc_top_countries

  /** `calc_top_countries`: fetch the product's orders, return an empty dict
      when there are none, else aggregate them and select with
      `calc_top_parallel`. */
  method CalcTopCountries(index: seq<Order>, productId: string, timeRange: (string, string))
    returns (r: TopResult)
    ensures var orders := QueryOrdersProductAndTimerange(index, productId, timeRange);
            && r == TopParallel(Aggregate(orders))
            && (orders == [] ==> r == ByCountry(Empty()))
  {
    var orders := QueryOrdersProductAndTimerange(index, productId, timeRange);
    AggregateSpec(orders);
    if |orders| == 0 {
      return ByCountry(Empty());
    }
    var countryToQuantity := AggregateNested(orders);
    r := CalcTopParallel(countryToQuantity);
  }

  /** End to end: a country is listed under a reported total exactly when its
      orders of the product sum to that total. */
  lemma TopCountriesTotals(index: seq<Order>, productId: string, timeRange: (string, string), q: int, c: string)
    requires TopParallel(Aggregate(QueryOrdersProductAndTimerange(index, productId, timeRange))).ByQuantity?
    requires q in TopParallel(Aggregate(QueryOrdersProductAndTimerange(index, productId, timeRange))).groups.vals
    ensures var orders := QueryOrdersProductAndTimerange(index, productId, timeRange);
            c in TopParallel(Aggregate(orders)).groups.vals[q] <==>
              (exists o :: o in orders && o.country == c) && SumQuantity(orders, c) == q
  {
    var orders := QueryOrdersProductAndTimerange(index, productId, timeRange);
    AggregateSpec(orders);
    CountriesMember(orders, c);
    TopParallelSpec(Aggregate(orders));
    assert Get(Aggregate(orders), c, 0) == SumQuantity(orders, c);
  }

  // ---------------------------------------------------------------------
  // Worked examples

  function Dict4(c1: string, q1: int, c2: string, q2: int, c3: string, q3: int, c4: string, q4: int): Totals {
    OrderedDict([c1, c2, c3, c4], map[c1 := q1, c2 := q2, c3 := q3, c4 := q4])
  }

  ghost predicate Names4(c1: string, c2: string, c3: string, c4: string) {
    c1 != c2 && c1 != c3 && c1 != c4 && c2 != c3 && c2 != c4 && c3 != c4
  }

  lemma Dict4Prefixes(c1: string, q1: int, c2: string, q2: int, c3: string, q3: int, c4: string, q4: int)
    requires Names4(c1, c2, c3, c4)
    ensures var d := Dict4(c1, q1, c2, q2, c3, q3, c4, q4);
            && Get(d, c1, 0) == q1 && Get(d, c2, 0) == q2 && Get(d, c3, 0) == q3 && Get(d, c4, 0) == q4
            && [c1] == [] + [c1] && [c1, c2] == [c1] + [c2] && [c1, c2, c3] == [c1, c2] + [c3]
            && d.keys == [c1, c2, c3] + [c4]
  {
  }

  lemma QuantitiesOf4(c1: string, q1: int, c2: string, q2: int, c3: string, q3: int, c4: string, q4: int)
    requires Names4(c1, c2, c3, c4)
    ensures var d := Dict4(c1, q1, c2, q2, c3, q3, c4, q4);
            Quantities(d, d.keys) == [q1, q2, q3, q4]
  {
    var d := Dict4(c1, q1, c2, q2, c3, q3, c4, q4);
    Dict4Prefixes(c1, q1, c2, q2, c3, q3, c4, q4);
    QuantitiesSnoc(d, [], c1);
    QuantitiesSnoc(d, [c1], c2);
    QuantitiesSnoc(d, [c1, c2], c3);
    QuantitiesSnoc(d, [c1, c2, c3], c4);
  }

  lemma PairsOf4(c1: string, q1: int, c2: string, q2: int, c3: string, q3: int, c4: string, q4: int)
    requires Names4(c1, c2, c3, c4)
    ensures var d := Dict4(c1, q1, c2, q2, c3, q3, c4, q4);
            Pairs(d, d.keys) == [(q1, c1), (q2, c2), (q3, c3), (q4, c4)]
  {
    var d := Dict4(c1, q1, c2, q2, c3, q3, c4, q4);
    Dict4Prefixes(c1, q1, c2, q2, c3, q3, c4, q4);
    PairsSnoc(d, [], c1);
    PairsSnoc(d, [c1], c2);
    PairsSnoc(d, [c1, c2], c3);
    PairsSnoc(d, [c1, c2, c3], c4);
  }

  lemma CountriesWithOf4(c1: string, q1: int, c2: string, q2: int, c3: string, q3: int, c4: string, q4: int, q: int)
    requires Names4(c1, c2, c3, c4)
    ensures var d := Dict4(c1, q1, c2, q2, c3, q3, c4, q4);
            CountriesWith(d, d.keys, q) ==
              (if q1 == q then [c1] else []) + (if q2 == q then [c2] else []) +
              (if q3 == q then [c3] else []) + (if q4 == q then [c4] else [])
  {
    var d := Dict4(c1, q1, c2, q2, c3, q3, c4, q4);
    Dict4Prefixes(c1, q1, c2, q2, c3, q3, c4, q4);
    QuantitiesSnoc(d, [], c1);
    QuantitiesSnoc(d, [c1], c2);
    QuantitiesSnoc(d, [c1, c2], c3);
    QuantitiesSnoc(d, [c1, c2, c3], c4);
  }

  /** The totals 10, 10, 7, 3 leave the heap `[3, 10, 7]`. */
  lemma KeepTop10_10_7_3()
    ensures KeepTop(Dedup([10, 10, 7, 3]), IntLess) == [3, 10, 7]
  {
    Dedup10_10_7_3();
    KeepTopSnoc([10, 7], IntLess, 3);
    KeepTopSnoc([10], IntLess, 7);
    KeepTopSnoc([], IntLess, 10);
    assert [10, 7, 3] == [10, 7] + [3] && [10, 7] == [10] + [7] && [10] == [] + [10];
    assert KeepTop([10], IntLess) == [10] by {
      assert Pushed([], IntLess, 10) == [10];
    }
    assert KeepTop([10, 7], IntLess) == [7, 10] by {
      assert [10] + [7] == [10, 7] && Parent(1) == 0 && [10, 7][1 := 10] == [10, 10];
      assert Pushed([10], IntLess, 7) == SiftedDown([10, 10], IntLess, 0, 7) == [7, 10];
    }
    assert [7, 10] + [3] == [7, 10, 3] && Parent(2) == 0 && [7, 10, 3][2 := 7] == [7, 10, 7];
    assert Pushed([7, 10], IntLess, 3) == SiftedDown([7, 10, 7], IntLess, 0, 3) == [3, 10, 7];
  }

  lemma Dedup10_10_7_3()
    ensures Dedup([10, 10, 7, 3]) == [10, 7, 3]
  {
    DedupSnoc([10, 10, 7], 3);
    DedupSnoc([10, 10], 7);
    DedupSnoc([10], 10);
    DedupSnoc([], 10);
    assert [10, 10, 7, 3] == [10, 10, 7] + [3] && [10, 10, 7] == [10, 10] + [7];
    assert [10, 10] == [10] + [10] && [10] == [] + [10];
  }

  lemma RetainedUnsorted()
    ensures Retained(Dict4("US", 10, "CA", 10, "FR", 7, "DE", 3)) == [3, 10, 7]
  {
    QuantitiesOf4("US", 10, "CA", 10, "FR", 7, "DE", 3);
    KeepTop10_10_7_3();
  }

  /** The groups dict built from the retained heap. */
  lemma GroupedUnsorted()
    ensures Grouped(Dict4("US", 10, "CA", 10, "FR", 7, "DE", 3), [3, 10, 7]) ==
            OrderedDict([7, 10, 3], map[7 := ["FR"], 10 := ["US", "CA"], 3 := ["DE"]])
  {
    var d := Dict4("US", 10, "CA", 10, "FR", 7, "DE", 3);
    Grouped3(d, 3, 10, 7);
    assert CountriesWith(d, d.keys, 7) == ["FR"] by {
      CountriesWithOf4("US", 10, "CA", 10, "FR", 7, "DE", 3, 7);
    }
    assert CountriesWith(d, d.keys, 10) == ["US", "CA"] by {
      CountriesWithOf4("US", 10, "CA", 10, "FR", 7, "DE", 3, 10);
    }
    assert CountriesWith(d, d.keys, 3) == ["DE"] by {
      CountriesWithOf4("US", 10, "CA", 10, "FR", 7, "DE", 3, 3);
    }
  }

  /** A heap of three distinct totals gives three groups, last entry first. */
  lemma Grouped3(d: Totals, a: int, b: int, c: int)
    requires a != b && a != c && b != c
    ensures Grouped(d, [a, b, c]) ==
            OrderedDict([c, b, a], map[c := CountriesWith(d, d.keys, c), b := CountriesWith(d, d.keys, b), a := CountriesWith(d, d.keys, a)])
  {
    var ca, cb, cc := CountriesWith(d, d.keys, a), CountriesWith(d, d.keys, b), CountriesWith(d, d.keys, c);
    GroupedCons(d, c, []);
    GroupedCons(d, b, [c]);
    GroupedCons(d, a, [b, c]);
    assert [c] + [] == [c] && [b] + [c] == [b, c] && [a] + [b, c] == [a, b, c];
    var g1 := Put(Empty(), c, cc);
    assert g1 == OrderedDict([c], map[c := cc]);
    var g2 := Put(g1, b, cb);
    assert b !in g1.vals && [c] + [b] == [c, b];
    assert g2 == OrderedDict([c, b], map[c := cc, b := cb]);
    assert a !in g2.vals && [c, b] + [a] == [c, b, a];
  }

  lemma GroupedCons(d: Totals, x: int, t: seq<int>)
    ensures Grouped(d, [x] + t) == Put(Grouped(d, t), x, CountriesWith(d, d.keys, x))
  {
    assert ([x] + t)[1..] == t;
  }

  /** US 10, CA 10, FR 7, DE 3: the groups come out as 7, 10, 3, the order
      `reversed(minheap)` gives, not descending order. */
  lemma ParallelExampleUnsorted()
    ensures TopParallel(Dict4("US", 10, "CA", 10, "FR", 7, "DE", 3)) ==
            ByQuantity(OrderedDict([7, 10, 3], map[7 := ["FR"], 10 := ["US", "CA"], 3 := ["DE"]]))
  {
    RetainedUnsorted();
    GroupedUnsorted();
  }

  /** The totals 5, 5, 3, 9 leave the heap `[3, 5, 9]`. */
  lemma KeepTop5_5_3_9()
    ensures KeepTop(Dedup([5, 5, 3, 9]), IntLess) == [3, 5, 9]
  {
    Dedup5_5_3_9();
    KeepTopSnoc([5, 3], IntLess, 9);
    KeepTopSnoc([5], IntLess, 3);
    KeepTopSnoc([], IntLess, 5);
    assert [5, 3, 9] == [5, 3] + [9] && [5, 3] == [5] + [3] && [5] == [] + [5];
    assert KeepTop([5], IntLess) == [5] by {
      assert Pushed([], IntLess, 5) == [5];
    }
    assert KeepTop([5, 3], IntLess) == [3, 5] by {
      assert [5] + [3] == [5, 3] && Parent(1) == 0 && [5, 3][1 := 5] == [5, 5];
      assert Pushed([5], IntLess, 3) == SiftedDown([5, 5], IntLess, 0, 3) == [3, 5];
    }
    assert [3, 5] + [9] == [3, 5, 9] && Parent(2) == 0;
    assert Pushed([3, 5], IntLess, 9) == [3, 5, 9];
  }

  lemma Dedup5_5_3_9()
    ensures Dedup([5, 5, 3, 9]) == [5, 3, 9]
  {
    DedupSnoc([5, 5, 3], 9);
    DedupSnoc([5, 5], 3);
    DedupSnoc([5], 5);
    DedupSnoc([], 5);
    assert [5, 5, 3, 9] == [5, 5, 3] + [9] && [5, 5, 3] == [5, 5] + [3];
    assert [5, 5] == [5] + [5] && [5] == [] + [5];
  }

  lemma RetainedTie()
    ensures Retained(Dict4("A", 5, "B", 5, "C", 3, "D", 9)) == [3, 5, 9]
  {
    QuantitiesOf4("A", 5, "B", 5, "C", 3, "D", 9);
    KeepTop5_5_3_9();
  }

  /** The groups dict built from the retained heap. */
  lemma GroupedTie()
    ensures Grouped(Dict4("A", 5, "B", 5, "C", 3, "D", 9), [3, 5, 9]) ==
            OrderedDict([9, 5, 3], map[9 := ["D"], 5 := ["A", "B"], 3 := ["C"]])
  {
    var d := Dict4("A", 5, "B", 5, "C", 3, "D", 9);
    Grouped3(d, 3, 5, 9);
    assert CountriesWith(d, d.keys, 9) == ["D"] by {
      CountriesWithOf4("A", 5, "B", 5, "C", 3, "D", 9, 9);
    }
    assert CountriesWith(d, d.keys, 5) == ["A", "B"] by {
      CountriesWithOf4("A", 5, "B", 5, "C", 3, "D", 9, 5);
    }
    assert CountriesWith(d, d.keys, 3) == ["C"] by {
      CountriesWithOf4("A", 5, "B", 5, "C", 3, "D", 9, 3);
    }
  }

  /** A 5, B 5, C 3, D 9: the totals 9, 5, 3 with A and B sharing 5. */
  lemma ParallelExampleTie()
    ensures TopParallel(Dict4("A", 5, "B", 5, "C", 3, "D", 9)) ==
            ByQuantity(OrderedDict([9, 5, 3], map[9 := ["D"], 5 := ["A", "B"], 3 := ["C"]]))
  {
    RetainedTie();
    GroupedTie();
  }

  /** The heap `calc_top_no_parallel` retains for US 10, CA 10, FR 7, DE 3. */
  lemma RetainedPairs()
    ensures var d := Dict4("US", 10, "CA", 10, "FR", 7, "DE", 3);
            KeepTop(Pairs(d, d.keys), PairLess) == [(7, "FR"), (10, "US"), (10, "CA")]
  {
    PairsOf4("US", 10, "CA", 10, "FR", 7, "DE", 3);
    KeepTopPairs();
  }

  lemma KeepTopPairs()
    ensures KeepTop([(10, "US"), (10, "CA"), (7, "FR"), (3, "DE")], PairLess) == [(7, "FR"), (10, "US"), (10, "CA")]
  {
    var us, ca, fr, de := (10, "US"), (10, "CA"), (7, "FR"), (3, "DE");
    KeepTopSnoc([us, ca, fr], PairLess, de);
    KeepTopSnoc([us, ca], PairLess, fr);
    KeepTopSnoc([us], PairLess, ca);
    KeepTopSnoc([], PairLess, us);
    assert [us, ca, fr, de] == [us, ca, fr] + [de] && [us, ca, fr] == [us, ca] + [fr];
    assert [us, ca] == [us] + [ca] && [us] == [] + [us];
    assert KeepTop([us], PairLess) == [us] by {
      assert Pushed([], PairLess, us) == [us];
    }
    assert KeepTop([us, ca], PairLess) == [ca, us] by {
      assert StrLess("CA", "US");
      assert [us] + [ca] == [us, ca] && Parent(1) == 0 && [us, ca][1 := us] == [us, us];
      assert Pushed([us], PairLess, ca) == SiftedDown([us, us], PairLess, 0, ca) == [ca, us];
    }
    assert KeepTop([us, ca, fr], PairLess) == [fr, us, ca] by {
      assert [ca, us] + [fr] == [ca, us, fr] && Parent(2) == 0 && [ca, us, fr][2 := ca] == [ca, us, ca];
      assert Pushed([ca, us], PairLess, fr) == SiftedDown([ca, us, ca], PairLess, 0, fr) == [fr, us, ca];
    }
    assert !PairLess(fr, de) by {
      assert StrLess("DE", "FR");
    }
    assert PushPopped([fr, us, ca], PairLess, de) == ([fr, us, ca], de);
  }

  /** US 10, CA 10, FR 7, DE 3 without grouping: the tie on 10 is broken by
      name, so CA, US and FR are kept, listed as CA, US, FR. */
  lemma NoParallelExample()
    ensures TopNoParallel(Dict4("US", 10, "CA", 10, "FR", 7, "DE", 3)) ==
            OrderedDict(["CA", "US", "FR"], map["CA" := 10, "US" := 10, "FR" := 7])
  {
    RetainedPairs();
    var h := [(7, "FR"), (10, "US"), (10, "CA")];
    assert h[1..] == [(10, "US"), (10, "CA")] && h[2..] == [(10, "CA")] && h[3..] == [];
    assert h[1..][1..] == h[2..] && h[2..][1..] == h[3..];
    assert ByCountryOf(h[3..]) == Empty();
    var b1 := ByCountryOf(h[2..]);
    assert b1 == Put(Empty(), "CA", 10);
    assert b1 == OrderedDict(["CA"], map["CA" := 10]);
    var b2 := ByCountryOf(h[1..]);
    assert b2 == Put(b1, "US", 10);
    assert b2 == OrderedDict(["CA", "US"], map["CA" := 10, "US" := 10]);
    assert ByCountryOf(h) == Put(b2, "FR", 7);
  }
}
