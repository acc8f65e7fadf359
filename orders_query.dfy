/** Orders and the read paths over the `Orders` table: a secondary-index
    query with an equality key condition, a filtered full scan, and the
    product query that feeds the top-countries report. The table (or the
    items of the index being queried) is an in-memory sequence of orders in
    the store's order; one call returns every item it would match. */
module OrdersQuery {
  import opened Strings

  /** An attribute value as DynamoDB types it: number or string. */
  datatype Value = Num(n: int) | Str(s: string)

  /** One item of the `Orders` table. Quantities, prices and tax, `Decimal`
      in the store, are modelled as whole numbers. */
  datatype Order = Order(
    orderId: string,
    customerId: string,
    orderTime: string,
    productId: string,
    productQuantity: int,
    totalPrice: int,
    tax: int,
    country: string)

  datatype Option<T> = None | Some(value: T)

  /** The attribute of an item under its table name; absent for any other name. */
  function Attr(o: Order, name: string): Option<Value> {
    if name == "order_id" then Some(Str(o.orderId))
    else if name == "customer_id" then Some(Str(o.customerId))
    else if name == "order_time" then Some(Str(o.orderTime))
    else if name == "product_id" then Some(Str(o.productId))
    else if name == "product_quantity" then Some(Num(o.productQuantity))
    else if name == "total_price" then Some(Num(o.totalPrice))
    else if name == "tax" then Some(Num(o.tax))
    else if name == "country" then Some(Str(o.country))
    else None
  }

  /** The comparison operators the read paths accept. */
  datatype Op = Eq | Gt

  datatype QueryError =
    | UnsupportedFilterOp(op: string)   // the ValueError of `scan_orders_filter`
    | ResponseUnbound(op: string)       // `query_orders_by_gsi` reads `response` without assigning it

  datatype Result<T> = Ok(value: T) | Err(error: QueryError)

  /** `a > b`: numbers by value, strings lexicographically; values of
      different types never compare. */
  predicate Greater(a: Value, b: Value) {
    match (a, b)
    case (Num(x), Num(y)) => x > y
    case (Str(x), Str(y)) => StrLess(y, x)
    case _ => false
  }

  /** `Attr(name).eq(v)` / `Attr(name).gt(v)`: an item without the attribute
      never matches. */
  predicate Satisfies(o: Order, name: string, op: Op, v: Value) {
    match Attr(o, name)
    case None => false
    case Some(a) => match op
      case Eq => a == v
      case Gt => Greater(a, v)
  }

  /** The items that satisfy the condition, in store order. */
  function Select(items: seq<Order>, name: string, op: Op, v: Value): seq<Order>
    decreases |items|
  {
    if items == [] then []
    else (if Satisfies(items[0], name, op, v) then [items[0]] else []) + Select(items[1..], name, op, v)
  }

  /** Each item occurs in the selection as often as in the input when it
      satisfies the condition, and not at all otherwise. */
  lemma {:induction false} SelectCount(items: seq<Order>, name: string, op: Op, v: Value)
    ensures forall o :: multiset(Select(items, name, op, v))[o] ==
              if Satisfies(o, name, op, v) then multiset(items)[o] else 0
    decreases |items|
  {
    if items != [] {
      assert items == [items[0]] + items[1..];
      SelectCount(items[1..], name, op, v);
    }
  }

  /** Selection keeps the store's order: it distributes over concatenation. */
  lemma {:induction false} SelectAppend(a: seq<Order>, b: seq<Order>, name: string, op: Op, v: Value)
    ensures Select(a + b, name, op, v) == Select(a, name, op, v) + Select(b, name, op, v)
    decreases |a|
  {
    if a != [] {
      var t := if Satisfies(a[0], name, op, v) then [a[0]] else [];
      assert (a + b)[0] == a[0] && (a + b)[1..] == a[1..] + b;
      assert Select(a + b, name, op, v) == t + Select(a[1..] + b, name, op, v);
      SelectAppend(a[1..], b, name, op, v);
      assert Select(a, name, op, v) == t + Select(a[1..], name, op, v);
    } else {
      assert a + b == b;
    }
  }

  /** `query_orders_by_gsi`: the index query with key condition `name = v`.
      Only `'eq'` assigns a response; any other operator fails. */
  function QueryOrdersByGsi(index: seq<Order>, name: string, v: Value, op: string): (r: Result<seq<Order>>)
    ensures r.Ok? <==> op == "eq"
    ensures r.Err? ==> r.error == ResponseUnbound(op)
    ensures r.Ok? ==> forall o ::
              multiset(r.value)[o] == (if Attr(o, name) == Some(v) then multiset(index)[o] else 0)
  {
    SelectCount(index, name, Eq, v);
    if op == "eq" then Ok(Select(index, name, Eq, v)) else Err(ResponseUnbound(op))
  }

  /** `scan_orders_filter`: a full scan filtered by `name == v` (`'eq'`) or
      `name > v` (`'gt'`); any other operator raises `ValueError`. */
  function ScanOrdersFilter(table: seq<Order>, name: string, v: Value, op: string): (r: Result<seq<Order>>)
    ensures r.Ok? <==> op == "eq" || op == "gt"
    ensures r.Err? ==> r.error == UnsupportedFilterOp(op)
    ensures r.Ok? ==> forall o ::
              multiset(r.value)[o] ==
                (if || (op == "eq" && Attr(o, name) == Some(v))
                    || (op == "gt" && Attr(o, name).Some? && Greater(Attr(o, name).value, v))
                 then multiset(table)[o] else 0)
  {
    SelectCount(table, name, Eq, v);
    SelectCount(table, name, Gt, v);
    if op == "eq" then Ok(Select(table, name, Eq, v))
    else if op == "gt" then Ok(Select(table, name, Gt, v))
    else Err(UnsupportedFilterOp(op))
  }

  /** `query_orders_product_and_timerange`: every order of the product in the
      index. The time range is accepted and not used. */
  function QueryOrdersProductAndTimerange(index: seq<Order>, productId: string, timeRange: (string, string)): (r: seq<Order>)
    ensures forall o :: multiset(r)[o] == if o.productId == productId then multiset(index)[o] else 0
  {
    SelectCount(index, "product_id", Eq, Str(productId));
    Select(index, "product_id", Eq, Str(productId))
  }
}
