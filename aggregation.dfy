/** The aggregation step of `calc_top_countries`: orders are reduced to a
    `country -> summed product_quantity` dict, whose keys stand in the order
    the countries are first seen. */
module Aggregation {
  import opened Seqs
  import opened OrderedDicts
  import opened OrdersQuery

  /** `country_to_quantity` */
  type Totals = OrderedDict<string, int>

  /** The country of each order, in order. */
  function Countries(orders: seq<Order>): seq<string>
    decreases |orders|
  {
    if orders == [] then []
    else Countries(orders[..|orders| - 1]) + [orders[|orders| - 1].country]
  }

  /** The summed `product_quantity` of the orders placed from `c`. */
  function SumQuantity(orders: seq<Order>, c: string): int
    decreases |orders|
  {
    if orders == [] then 0
    else
      var o := orders[|orders| - 1];
      SumQuantity(orders[..|orders| - 1], c) + if o.country == c then o.productQuantity else 0
  }

  /** The dict after one pass over `orders`:
      `d[o.country] = d.get(o.country, 0) + o.product_quantity` for each order. */
  function Aggregate(orders: seq<Order>): Totals
    decreases |orders|
  {
    if orders == [] then Empty()
    else
      var d0, o := Aggregate(orders[..|orders| - 1]), orders[|orders| - 1];
      Put(d0, o.country, Get(d0, o.country, 0) + o.productQuantity)
  }

  /** The keys are the countries in first-seen order, and each country's
      entry (0 when absent) is its summed quantity. */
  lemma AggregateSpec(orders: seq<Order>)
    ensures Aggregate(orders).Valid()
    ensures Aggregate(orders).keys == Dedup(Countries(orders))
    ensures forall c :: c in Aggregate(orders).vals <==> c in Countries(orders)
    ensures forall c :: Get(Aggregate(orders), c, 0) == SumQuantity(orders, c)
  {
    AggregateDomain(orders);
    AggregateKeys(orders);
    forall c ensures Get(Aggregate(orders), c, 0) == SumQuantity(orders, c) {
      AggregateTotal(orders, c);
    }
  }

  lemma {:induction false} AggregateDomain(orders: seq<Order>)
    ensures forall c :: c in Aggregate(orders).vals <==> c in Countries(orders)
    decreases |orders|
  {
    if orders != [] {
      AggregateDomain(orders[..|orders| - 1]);
    }
  }

  lemma {:induction false} AggregateKeys(orders: seq<Order>)
    ensures Aggregate(orders).Valid()
    ensures Aggregate(orders).keys == Dedup(Countries(orders))
    decreases |orders|
  {
    if orders != [] {
      var p, o := orders[..|orders| - 1], orders[|orders| - 1];
      AggregateKeys(p);
      AggregateDomain(p);
      var d := Aggregate(p);
      PutValid(d, o.country, Get(d, o.country, 0) + o.productQuantity);
      DedupSnoc(Countries(p), o.country);
    }
  }

  lemma {:induction false} AggregateTotal(orders: seq<Order>, c: string)
    ensures Get(Aggregate(orders), c, 0) == SumQuantity(orders, c)
    decreases |orders|
  {
    if orders != [] {
      AggregateTotal(orders[..|orders| - 1], c);
    }
  }

  /** A country appears exactly when some order is placed from it. */
  lemma {:induction false} CountriesMember(orders: seq<Order>, c: string)
    ensures c in Countries(orders) <==> exists o :: o in orders && o.country == c
    decreases |orders|
  {
    if orders != [] {
      var p, o := orders[..|orders| - 1], orders[|orders| - 1];
      assert orders == p + [o];
      CountriesMember(p, c);
    }
  }

  lemma {:induction false} SumQuantityAppend(a: seq<Order>, b: seq<Order>, c: string)
    ensures SumQuantity(a + b, c) == SumQuantity(a, c) + SumQuantity(b, c)
    decreases |b|
  {
    if b == [] {
      assert a + b == a;
    } else {
      var b', o := b[..|b| - 1], b[|b| - 1];
      assert (a + b)[..|a + b| - 1] == a + b' && (a + b)[|a + b| - 1] == o;
      SumQuantityAppend(a, b', c);
    }
  }

  /** The summed quantity does not depend on the order of the orders. */
  lemma {:induction false} SumQuantityPermutation(a: seq<Order>, b: seq<Order>, c: string)
    requires multiset(a) == multiset(b)
    ensures SumQuantity(a, c) == SumQuantity(b, c)
    decreases |a|
  {
    if a == [] {
      assert b == [];
    } else {
      var p, x := a[..|a| - 1], a[|a| - 1];
      assert a == p + [x];
      assert x in multiset(b);
      var i :| 0 <= i < |b| && b[i] == x;
      var rest := b[..i] + b[i + 1..];
      RemoveAt(b, i);
      assert multiset(p) == multiset(a) - multiset{x};
      SumQuantityPermutation(p, rest, c);
      SumQuantityRemove(b, i, c);
    }
  }

  lemma RemoveAt(b: seq<Order>, i: nat)
    requires i < |b|
    ensures multiset(b[..i] + b[i + 1..]) == multiset(b) - multiset{b[i]}
  {
    assert b == b[..i] + [b[i]] + b[i + 1..];
  }

  /** Taking one order out of the sequence takes its quantity out of the sum. */
  lemma SumQuantityRemove(b: seq<Order>, i: nat, c: string)
    requires i < |b|
    ensures SumQuantity(b, c) ==
              SumQuantity(b[..i] + b[i + 1..], c) + if b[i].country == c then b[i].productQuantity else 0
  {
    var l, x, r := b[..i], b[i], b[i + 1..];
    assert b == (l + [x]) + r;
    SumQuantityAppend(l + [x], r, c);
    SumQuantityAppend(l, [x], c);
    SumQuantityAppend(l, r, c);
    assert [x][..0] == [];
  }

  /** Aggregating the same orders in any order gives the same totals. */
  lemma AggregatePermutation(a: seq<Order>, b: seq<Order>)
    requires multiset(a) == multiset(b)
    ensures Aggregate(a).vals == Aggregate(b).vals
  {
    AggregateDomain(a);
    AggregateDomain(b);
    var da, db := Aggregate(a), Aggregate(b);
    forall c ensures c in da.vals <==> c in db.vals {
      SameCountries(a, b, c);
    }
    forall c | c in da.vals ensures da.vals[c] == db.vals[c] {
      SumQuantityPermutation(a, b, c);
      AggregateTotal(a, c);
      AggregateTotal(b, c);
    }
  }

  lemma SameCountries(a: seq<Order>, b: seq<Order>, c: string)
    requires multiset(a) == multiset(b)
    ensures c in Countries(a) <==> c in Countries(b)
  {
    CountriesMember(a, c);
    CountriesMember(b, c);
    forall o ensures o in a <==> o in b {
      assert o in a <==> o in multiset(a);
      assert o in b <==> o in multiset(b);
    }
  }

  lemma AggregateStep(orders: seq<Order>, i: nat)
    requires i < |orders|
    ensures var d := Aggregate(orders[..i]);
            Aggregate(orders[..i + 1]) == Put(d, orders[i].country, Get(d, orders[i].country, 0) + orders[i].productQuantity)
  {
    assert orders[..i + 1][..i] == orders[..i];
  }

  /** The aggregation as written: the whole pass is repeated once per order,
      each time starting from an empty dict. The source first assigns the
      dict inside the outer loop, so its caller must rule out an empty list;
      the initial empty dict here only satisfies Dafny's definite assignment. */
  method AggregateNested(orders: seq<Order>) returns (countryToQuantity: Totals)
    requires orders != []
    ensures countryToQuantity == Aggregate(orders)
  {
    countryToQuantity := Empty();
    var outer := 0;
    while outer < |orders|
      invariant 0 <= outer <= |orders|
      invariant 0 < outer ==> countryToQuantity == Aggregate(orders)
    {
      countryToQuantity := Empty();
      var i := 0;
      assert orders[..0] == [];
      while i < |orders|
        invariant 0 <= i <= |orders|
        invariant countryToQuantity == Aggregate(orders[..i])
      {
        var order := orders[i];
        AggregateStep(orders, i);
        var total := Get(countryToQuantity, order.country, 0) + order.productQuantity;
        countryToQuantity := Put(countryToQuantity, order.country, total);
        i := i + 1;
      }
      assert orders[..i] == orders;
      outer := outer + 1;
    }
  }
}
